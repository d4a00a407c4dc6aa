/**
 The routes and addresses that a successful pass of the sidecar leaves, said in terms of the
 network it has read and of the kernel alone.
 */
module SidecarRoutes {
  import opened Wrappers
  import opened Addresses
  import opened PickIP
  import opened Api
  import opened Allocations
  import opened Ipam
  import opened Cluster
  import opened Runs
  import opened Kernel
  import opened Names
  import opened Tunnels
  import opened Links
  import opened Routes
  import opened RouteRuns
  import opened Sidecar

  // ---------- what is wanted ----------

  /** The entry is a pod that routes to the prefix. */
  ghost predicate RoutesTo(cidr: string, rt: Allocation, c: Cidr, gw: Quad) {
    ParseCIDR(cidr) == Some(c) && ParseIPv4(rt.ip) == Some(gw)
  }

  /** A pod that is no router itself wants the routable prefixes through every router. */
  ghost predicate WantedAsMember(nw: Network, me: string, c: Cidr, gw: Quad) {
    && !IsRouter(nw.status, me)
    && exists cidr, rt :: cidr in nw.spec.routableCIDRs && rt in nw.status.routers && RoutesTo(cidr, rt, c, gw)
  }

  /** The prefix is one of the first optional route of the name. */
  ghost predicate OptionalPrefix(spec: Spec, name: string, cidr: string) {
    exists i: nat :: FirstNamed(spec.optionalRoutes, i, name) && cidr in spec.optionalRoutes[i].routableCIDRs
  }

  /** An allocated pod wants the prefixes of its extra networks, each through the pods that offer it under that name. */
  ghost predicate WantedAsExtra(nw: Network, me: string, c: Cidr, gw: Quad) {
    && IsAllocated(nw.status, me)
    && exists name, cidr, rt ::
      && name in Find(nw.status.allocations, me).value.extraNetworks && OptionalPrefix(nw.spec, name, cidr)
      && rt in Under(nw.status.optionalRouters, name) && RoutesTo(cidr, rt, c, gw)
  }

  ghost predicate WantedVia(nw: Network, me: string, c: Cidr, gw: Quad) {
    WantedAsMember(nw, me, c, gw) || WantedAsExtra(nw, me, c, gw)
  }

  lemma MemberRoutesExact(nw: Network, me: string, t: RouteState)
    ensures !IsRouter(nw.status, me) ==>
      (t in RoutesFor(nw.spec.routableCIDRs, nw.status.routers)
       <==> exists c: Cidr :: c.Valid() && WantedAsMember(nw, me, c, t.router) && NetIs(t.net, c))
  {
    hide ParseCIDR, ParseIPv4, NetIs, RoutesFor, IsRouter;
    RoutesForExact(nw.spec.routableCIDRs, nw.status.routers, t);
    if FromPrefixAndRouter(t, nw.spec.routableCIDRs, nw.status.routers) {
      var cidr, rt :| cidr in nw.spec.routableCIDRs && rt in nw.status.routers
        && ParseCIDR(cidr).Some? && NetIs(t.net, ParseCIDR(cidr).value) && ParseIPv4(rt.ip) == Some(t.router);
      assert RoutesTo(cidr, rt, ParseCIDR(cidr).value, t.router);
    }
  }

  lemma ExtraFrom(nw: Network, me: string, t: RouteState, name: string)
    requires IsAllocated(nw.status, me) && name in Find(nw.status.allocations, me).value.extraNetworks
    requires FromOptionalRoute(t, name, nw.spec, nw.status)
    ensures exists c: Cidr :: c.Valid() && WantedAsExtra(nw, me, c, t.router) && NetIs(t.net, c)
  {
    hide ParseCIDR, ParseIPv4, NetIs;
    var i: nat :| FirstNamed(nw.spec.optionalRoutes, i, name)
      && FromPrefixAndRouter(t, nw.spec.optionalRoutes[i].routableCIDRs, Under(nw.status.optionalRouters, name));
    var cidrs := nw.spec.optionalRoutes[i].routableCIDRs;
    var cidr, rt :| cidr in cidrs && rt in Under(nw.status.optionalRouters, name)
      && ParseCIDR(cidr).Some? && NetIs(t.net, ParseCIDR(cidr).value) && ParseIPv4(rt.ip) == Some(t.router);
    assert OptionalPrefix(nw.spec, name, cidr) && RoutesTo(cidr, rt, ParseCIDR(cidr).value, t.router);
  }

  lemma ExtraTo(nw: Network, me: string, t: RouteState, c: Cidr) returns (name: string)
    requires c.Valid() && WantedAsExtra(nw, me, c, t.router) && NetIs(t.net, c)
    ensures name in Find(nw.status.allocations, me).value.extraNetworks
    ensures FromOptionalRoute(t, name, nw.spec, nw.status)
  {
    hide ParseCIDR, ParseIPv4, NetIs;
    var cidr, rt;
    name, cidr, rt :|
      && name in Find(nw.status.allocations, me).value.extraNetworks && OptionalPrefix(nw.spec, name, cidr)
      && rt in Under(nw.status.optionalRouters, name) && RoutesTo(cidr, rt, c, t.router);
    var i: nat :| FirstNamed(nw.spec.optionalRoutes, i, name) && cidr in nw.spec.optionalRoutes[i].routableCIDRs;
    assert FromPrefixAndRouter(t, nw.spec.optionalRoutes[i].routableCIDRs, Under(nw.status.optionalRouters, name));
  }

  lemma LocalExtraExact(nw: Network, me: string, t: RouteState)
    ensures t in LocalExtraRoutes(nw, me)
      <==> exists c: Cidr :: c.Valid() && WantedAsExtra(nw, me, c, t.router) && NetIs(t.net, c)
  {
    hide ExtraRoutes, FromOptionalRoute, WantedAsExtra, NetIs, Find;
    if IsAllocated(nw.status, me) {
      var names := Find(nw.status.allocations, me).value.extraNetworks;
      ExtraRoutesExact(names, nw.spec, nw.status, t);
      forall name | name in names && FromOptionalRoute(t, name, nw.spec, nw.status)
        ensures exists c: Cidr :: c.Valid() && WantedAsExtra(nw, me, c, t.router) && NetIs(t.net, c)
      {
        ExtraFrom(nw, me, t, name);
      }
      forall c: Cidr | c.Valid() && WantedAsExtra(nw, me, c, t.router) && NetIs(t.net, c)
        ensures exists name :: name in names && FromOptionalRoute(t, name, nw.spec, nw.status)
      {
        var name := ExtraTo(nw, me, t, c);
      }
    } else {
      forall c: Cidr ensures !WantedAsExtra(nw, me, c, t.router) { OnlyAllocated(nw, me, c, t.router); }
    }
  }

  lemma OnlyAllocated(nw: Network, me: string, c: Cidr, gw: Quad)
    requires !IsAllocated(nw.status, me)
    ensures !WantedAsExtra(nw, me, c, gw)
  {
  }

  /** The wanted routes lead to the wanted prefixes, through the wanted gateways. */
  lemma WantedRoutesExact(nw: Network, me: string, t: RouteState)
    ensures t in WantedRoutes(nw.spec, nw.status, IsRouter(nw.status, me), LocalExtraRoutes(nw, me))
      <==> exists c: Cidr :: c.Valid() && WantedVia(nw, me, c, t.router) && NetIs(t.net, c)
  {
    hide RoutesFor, LocalExtraRoutes, WantedAsExtra, NetIs, IsRouter;
    MemberRoutesExact(nw, me, t);
    LocalExtraExact(nw, me, t);
  }

  // ---------- what a pass leaves ----------

  /** The sidecar's own route: of link scope, with this mask, from the pod's own overlay address. */
  ghost predicate IsOwn(r: Route, ones: nat, own: Option<Quad>) {
    r.linkScope && r.dst.ones == ones && r.dst.bits == 32 && r.src == own
  }

  /** The route leads through the gateway and has the mask size of the prefix. */
  ghost predicate LeadsTo(r: Route, c: Cidr, gw: Quad) {
    r.gw == Some(gw) && r.dst.ones == c.bits && r.dst.bits == 32
  }

  /** A route that the pass has added leads exactly where it has to. */
  ghost predicate RightNew(r: Route, nw: Network, me: string, pool: Cidr, own: Option<Quad>, peer: Option<Quad>)
    requires pool.Valid()
  {
    && r.src == own
    && if r.linkScope then
         r.gw == None && if IsRouter(nw.status, me) then r.dst == IPNet(peer, 32, 32) else NetIs(r.dst, pool)
       else exists c: Cidr, gw :: c.Valid() && WantedVia(nw, me, c, gw) && r.gw == Some(gw) && NetIs(r.dst, c)
  }

  /**
   The routes of a link after a pass: the own route, to the pool for a member and to the peer for a
   router; for every wanted prefix and gateway a route; no other routes; and the new ones are exact.
   */
  ghost predicate RightRoutes(before: set<Route>, after: set<Route>, nw: Network, me: string,
                              own: Option<Quad>, peer: Option<Quad>)
  {
    match ParseCIDR(nw.spec.allocatableCIDR)
    case None => false
    case Some(pool) =>
      var ones := if IsRouter(nw.status, me) then 32 else pool.bits;
      && (exists r :: r in after && IsOwn(r, ones, own))
      && (forall c: Cidr, gw :: WantedVia(nw, me, c, gw) ==> HasRoute(after, ones, own, c, gw))
      && (forall r :: r in after && !IsOwn(r, ones, own) ==> LeadsSomewhere(r, nw, me))
      && (forall r :: r in before && IsOwn(r, ones, own) ==> r in after)
      && (forall r :: r in after && r !in before ==> RightNew(r, nw, me, pool, own, peer))
  }

  ghost predicate HasRoute(routes: set<Route>, ones: nat, own: Option<Quad>, c: Cidr, gw: Quad) {
    exists r :: r in routes && !IsOwn(r, ones, own) && LeadsTo(r, c, gw)
  }

  ghost predicate LeadsSomewhere(r: Route, nw: Network, me: string) {
    exists c: Cidr, gw :: WantedVia(nw, me, c, gw) && LeadsTo(r, c, gw)
  }

  lemma WantedValid(nw: Network, me: string, c: Cidr, gw: Quad)
    requires WantedVia(nw, me, c, gw)
    ensures c.Valid() && RouteState(NetOf(c), gw) in
      WantedRoutes(nw.spec, nw.status, IsRouter(nw.status, me), LocalExtraRoutes(nw, me))
  {
    hide ParseIPv4, NetOf, NetIs, WantedRoutes, LocalExtraRoutes;
    WantedParses(nw, me, c, gw);
    var t := RouteState(NetOf(c), gw);
    NetOfExactly(NetOf(c), c);
    WantedRoutesExact(nw, me, t);
    assert WantedVia(nw, me, c, t.router) && NetIs(t.net, c);
  }

  lemma WantedParses(nw: Network, me: string, c: Cidr, gw: Quad)
    requires WantedVia(nw, me, c, gw)
    ensures c.Valid()
  {
    hide ParseIPv4, ParseCIDR;
  }

  /** What the sidecar's link-scope route covers, and the mask it is told by. */
  lemma OwnedIsOwn(info: LinkInfo, pool: Cidr, isRouter: bool, r: Route)
    requires pool.Valid()
    ensures Owned(r, info, OwnedNet(info, NetOf(pool), isRouter))
      <==> IsOwn(r, if isRouter then 32 else pool.bits, ParseIPv4(info.inTunnelLocalIP))
  {
    hide ParseIPv4, First;
  }

  lemma CoveredLeads(routes: set<Route>, info: LinkInfo, nw: Network, me: string, net: IPNet, c: Cidr, gw: Quad)
    returns (r: Route)
    requires Covered(routes, info, net,
                     WantedRoutes(nw.spec, nw.status, IsRouter(nw.status, me), LocalExtraRoutes(nw, me)))
    requires WantedVia(nw, me, c, gw)
    ensures r in routes && !Owned(r, info, net) && LeadsTo(r, c, gw)
  {
    hide ParseIPv4, WantedRoutes, LocalExtraRoutes, IsRouter, WantedVia, Owned, First;
    WantedValid(nw, me, c, gw);
    assert Passing(routes, info, net, RouteState(NetOf(c), gw));
    r :| r in routes && !Owned(r, info, net) && Matches(r, RouteState(NetOf(c), gw));
  }

  lemma CoveredOnly(routes: set<Route>, info: LinkInfo, nw: Network, me: string, net: IPNet, r: Route)
    returns (c: Cidr, gw: Quad)
    requires Covered(routes, info, net,
                     WantedRoutes(nw.spec, nw.status, IsRouter(nw.status, me), LocalExtraRoutes(nw, me)))
    requires r in routes && !Owned(r, info, net)
    ensures WantedVia(nw, me, c, gw) && LeadsTo(r, c, gw)
  {
    hide ParseIPv4, WantedRoutes, LocalExtraRoutes, IsRouter, WantedVia, Owned, NetIs;
    var t :| t in WantedRoutes(nw.spec, nw.status, IsRouter(nw.status, me), LocalExtraRoutes(nw, me)) && Matches(r, t);
    c := WantedFrom(nw, me, t);
    gw := t.router;
  }

  lemma DiffNew(before: set<Route>, after: set<Route>, info: LinkInfo, nw: Network, me: string, pool: Cidr, r: Route)
    requires pool.Valid()
    requires Diffed(before, after, info, OwnedNet(info, NetOf(pool), IsRouter(nw.status, me)),
                    WantedRoutes(nw.spec, nw.status, IsRouter(nw.status, me), LocalExtraRoutes(nw, me)))
    requires r in after && r !in before
    ensures RightNew(r, nw, me, pool, ParseIPv4(info.inTunnelLocalIP), ParseIPv4(info.inTunnelRemoteIP))
  {
    hide ParseIPv4, WantedRoutes, LocalExtraRoutes, IsRouter, WantedVia, Owned, NetIs, NetOf, Passing;
    var net := OwnedNet(info, NetOf(pool), IsRouter(nw.status, me));
    if r == OwnRoute(info, net) {
      NetOfExactly(NetOf(pool), pool);
    } else {
      var t :| t in WantedRoutes(nw.spec, nw.status, IsRouter(nw.status, me), LocalExtraRoutes(nw, me))
        && r == AsRoute(t, info);
      var c := WantedFrom(nw, me, t);
    }
  }

  /** A diff against the wanted routes leaves the right ones. */
  lemma DiffIsRight(before: set<Route>, after: set<Route>, info: LinkInfo, nw: Network, me: string)
    requires ParseCIDR(nw.spec.allocatableCIDR).Some?
    requires Diffed(before, after, info,
                    OwnedNet(info, NetOf(ParseCIDR(nw.spec.allocatableCIDR).value), IsRouter(nw.status, me)),
                    WantedRoutes(nw.spec, nw.status, IsRouter(nw.status, me), LocalExtraRoutes(nw, me)))
    ensures RightRoutes(before, after, nw, me, ParseIPv4(info.inTunnelLocalIP), ParseIPv4(info.inTunnelRemoteIP))
  {
    hide ParseIPv4, ParseCIDR, WantedRoutes, LocalExtraRoutes, IsRouter, WantedVia, Owned, IsOwn, LeadsTo, RightNew,
      NetOf, OwnedNet, Passing, Covered;
    var pool := ParseCIDR(nw.spec.allocatableCIDR).value;
    var isRouter := IsRouter(nw.status, me);
    var net := OwnedNet(info, NetOf(pool), isRouter);
    var own := ParseIPv4(info.inTunnelLocalIP);
    var ones := if isRouter then 32 else pool.bits;
    forall r ensures Owned(r, info, net) <==> IsOwn(r, ones, own) { OwnedIsOwn(info, pool, isRouter, r); }
    DiffedIsCovered(before, after, info, net, WantedRoutes(nw.spec, nw.status, isRouter, LocalExtraRoutes(nw, me)));
    forall c: Cidr, gw | WantedVia(nw, me, c, gw)
      ensures HasRoute(after, ones, own, c, gw)
    {
      var r := CoveredLeads(after, info, nw, me, net, c, gw);
    }
    forall r | r in after && !IsOwn(r, ones, own)
      ensures LeadsSomewhere(r, nw, me)
    {
      var c, gw := CoveredOnly(after, info, nw, me, net, r);
    }
    forall r | r in after && r !in before ensures RightNew(r, nw, me, pool, own, ParseIPv4(info.inTunnelRemoteIP)) {
      DiffNew(before, after, info, nw, me, pool, r);
    }
  }

  lemma WantedFrom(nw: Network, me: string, t: RouteState) returns (c: Cidr)
    requires t in WantedRoutes(nw.spec, nw.status, IsRouter(nw.status, me), LocalExtraRoutes(nw, me))
    ensures c.Valid() && WantedVia(nw, me, c, t.router) && NetIs(t.net, c)
    ensures t.net.ones == c.bits && t.net.bits == 32
  {
    hide WantedRoutes, LocalExtraRoutes, IsRouter, WantedVia;
    WantedRoutesExact(nw, me, t);
    c :| c.Valid() && WantedVia(nw, me, c, t.router) && NetIs(t.net, c);
  }

  /** A link that the pass has set up: up, with the ports of the network, and its address with the mask of the pool. */
  ghost predicate RightLink(d: Device, nw: Network, me: string, localIP: string, remoteIP: string, overlayIP: string) {
    var pool := ParseCIDR(nw.spec.allocatableCIDR);
    && pool.Some? && d.up && d.port == nw.spec.port % 0x1_0000 && d.ttl == 200
    && d.localIP == ParseIPv4(localIP) && d.remoteIP == ParseIPv4(remoteIP)
    && d.addresses == [IPNet(ParseIPv4(overlayIP), if IsRouter(nw.status, me) then 32 else pool.value.bits, 32)]
  }

  /** What a successful pass leaves of every target link, new or not. */
  lemma PassIsRight(before: map<string, Device>, after: map<string, Device>, nw: Network, me: string, id: int,
                    n: string)
    requires Done(before, after, nw, me, id) && n in TargetLinks(nw.status, me, id)
    ensures n in after
    ensures var info := TargetLinks(nw.status, me, id)[n];
      && (n !in before ==> RightLink(after[n], nw, me, info.localIP, info.remoteIP, info.inTunnelLocalIP))
      && RightRoutes(if n in before then before[n].routes else {}, after[n].routes, nw, me,
                  ParseIPv4(info.inTunnelLocalIP), ParseIPv4(info.inTunnelRemoteIP))
  {
    hide TargetLinks, ParseIPv4, ParseCIDR, Prefix, RoutesInPlace, RightRoutes, Diffed, NetOf, WantedRoutes,
      LocalExtraRoutes, OwnedNet, Converged;
    var info := TargetLinks(nw.status, me, id)[n];
    var pool := ParseCIDR(nw.spec.allocatableCIDR).value;
    var made := Configured(info, nw.spec.port, pool.bits, IsRouter(nw.status, me)).routes;
    assert RoutesDone(before, after, n, info, nw, me);
    DiffIsRight(if n in before then before[n].routes else made, after[n].routes, info, nw, me);
    if n !in before { MadeIsRight(made, after[n].routes, info, nw, me); }
  }

  /** For a new link the route that the set-up makes is new as well, and right. */
  lemma MadeIsRight(made: set<Route>, after: set<Route>, info: LinkInfo, nw: Network, me: string)
    requires ParseCIDR(nw.spec.allocatableCIDR).Some?
    requires var pool := ParseCIDR(nw.spec.allocatableCIDR).value;
      made == Configured(info, nw.spec.port, pool.bits, IsRouter(nw.status, me)).routes
    requires RightRoutes(made, after, nw, me, ParseIPv4(info.inTunnelLocalIP), ParseIPv4(info.inTunnelRemoteIP))
    ensures RightRoutes({}, after, nw, me, ParseIPv4(info.inTunnelLocalIP), ParseIPv4(info.inTunnelRemoteIP))
  {
    hide ParseIPv4, ParseCIDR, NetIs, WantedVia, IsRouter;
  }

  // ---------- on a status of a run ----------

  /** On a status of a run every wanted gateway is the overlay address of an allocated pod, inside the pool. */
  lemma GatewaysAreAllocated(states: seq<State>, events: seq<Event>, k: nat, n: string, me: string, c: Cidr, gw: Quad)
    requires Run(states, events) && k < |states| && n in Latest(states, k).networks
    requires WantedVia(Latest(states, k).networks[n], me, c, gw)
    ensures var nw := Latest(states, k).networks[n];
      var pool := ParseCIDR(nw.spec.allocatableCIDR);
      && pool.Some? && InNet(pool.value, Value(gw))
      && exists a :: a in nw.status.allocations && a.ip == Dotted(gw)
  {
    hide ParseIPv4, ParseCIDR, Dotted, Run, IsRouter, Find, TextInNet, InNet;
    var nw := Latest(states, k).networks[n];
    AllocationsAreSafe(states, events, k, n);
    var rt := GatewayEntry(nw, me, c, gw);
    if rt in nw.status.routers {
      RoutersAgree(states, events, k, n, "", rt);
    } else {
      var name :| rt in Under(nw.status.optionalRouters, name);
      RoutersAgree(states, events, k, n, name, rt);
    }
    var a :| a in nw.status.allocations && SameAddresses(rt, a);
    TextParses(ParseCIDR(nw.spec.allocatableCIDR).value, a.ip);
  }

  lemma GatewayEntry(nw: Network, me: string, c: Cidr, gw: Quad) returns (rt: Allocation)
    requires WantedVia(nw, me, c, gw)
    ensures ParseIPv4(rt.ip) == Some(gw)
    ensures rt in nw.status.routers || exists name :: rt in Under(nw.status.optionalRouters, name)
  {
    hide ParseIPv4, ParseCIDR, IsRouter, Find;
    if WantedAsMember(nw, me, c, gw) {
      var cidr;
      cidr, rt :| cidr in nw.spec.routableCIDRs && rt in nw.status.routers && RoutesTo(cidr, rt, c, gw);
    } else {
      var name, cidr;
      name, cidr, rt :|
        && name in Find(nw.status.allocations, me).value.extraNetworks && OptionalPrefix(nw.spec, name, cidr)
        && rt in Under(nw.status.optionalRouters, name) && RoutesTo(cidr, rt, c, gw);
    }
  }

  /** On a status of a run the own route and the new routes are those of the allocated addresses of the two pods. */
  lemma ReachedPassIsRight(states: seq<State>, events: seq<Event>, k: nat, n: string, p: string, q: string, id: int,
                           before: map<string, Device>, after: map<string, Device>)
    requires Run(states, events) && k < |states| && n in Latest(states, k).networks
    requires p != q && HashIsOwn(Latest(states, k).networks[n].status, q)
    requires Done(before, after, Latest(states, k).networks[n], p, id) && TunnelName(id, q) in after
    ensures var nw, name := Latest(states, k).networks[n], TunnelName(id, q);
      && IsAllocated(nw.status, p) && IsAllocated(nw.status, q)
      && var own, peer := Find(nw.status.allocations, p).value, Find(nw.status.allocations, q).value;
      && RightRoutes(if name in before then before[name].routes else {}, after[name].routes, nw, p,
                     ParseIPv4(own.ip), ParseIPv4(peer.ip))
      && (name !in before ==> RightLink(after[name], nw, p, own.podIP, peer.podIP, own.ip))
  {
    hide Run, TunnelName, TargetLinks, ParseIPv4, ParseCIDR, HashIsOwn, Consistent, RoutesInPlace, Prefix, Fnv,
      IsRouter, Find, RightRoutes, RoutesDone, LinkKept;
    var nw := Latest(states, k).networks[n];
    ReachedConsistent(states, events, k, n);
    LinkedExactly(nw.status, p, q, id);
    OwnPrefix(id, q);
    PassIsRight(before, after, nw, p, id, TunnelName(id, q));
  }
}
