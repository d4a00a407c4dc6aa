/**
 Bringing the routes of the tunnel links to their target. Routes are compared by gateway
 and mask size only, and the claims here are made modulo that comparison.
 */
module Routes {
  import opened Wrappers
  import opened Addresses
  import opened Api
  import opened Allocations
  import opened Ipam
  import opened Kernel
  import opened Tunnels

  /** A wanted route: its network and its gateway. */
  datatype RouteState = RouteState(net: IPNet, router: Quad)

  /** netEqual: mask size only, since the address is compared with itself. */
  predicate NetEqual(a: IPNet, b: IPNet) {
    a.ones == b.ones && a.bits == b.bits && a.ip == a.ip
  }

  /** The route in the kernel passes for the wanted one. */
  predicate Matches(r: Route, t: RouteState) {
    Some(t.router) == r.gw && NetEqual(r.dst, t.net)
  }

  /** Two wanted routes pass for each other. */
  predicate SameClass(a: RouteState, b: RouteState) {
    NetEqual(a.net, b.net) && a.router == b.router
  }

  // ---------- the wanted routes ----------

  /** The network of a prefix, host bits cleared. */
  function NetOf(c: Cidr): IPNet
    requires c.Valid()
  {
    DivMod(c.written, Size(c));
    IPNet(Some(QuadOf(First(c))), c.bits, 32)
  }

  /** The mask of the prefix, and the least of its addresses. */
  ghost predicate NetIs(net: IPNet, c: Cidr)
    requires c.Valid()
  {
    && net.ones == c.bits && net.bits == 32 && net.ip.Some?
    && InNet(c, Value(net.ip.value)) && forall a: nat :: InNet(c, a) ==> Value(net.ip.value) <= a
  }

  /** The network of a prefix has its mask and its least address. */
  lemma NetOfExactly(net: IPNet, c: Cidr)
    requires c.Valid()
    ensures NetIs(net, c) <==> net == NetOf(c)
  {
    hide Size, Masked, QuadOf, Value;
    WrittenInNet(c);
    LastInSpace(c);
    QuadRoundTrip(First(c));
    FirstInNet(c);
    if NetIs(net, c) { ValueInjective(net.ip.value, QuadOf(First(c))); }
  }

  lemma FirstInNet(c: Cidr)
    requires c.Valid()
    ensures InNet(c, First(c)) && First(c) < IPV4_SPACE
    ensures forall a: nat :: InNet(c, a) ==> First(c) <= a
  {
    hide Masked;
    LastInSpace(c);
  }

  /** One route through every router whose address parses. */
  function ThroughRouters(net: IPNet, routers: seq<Allocation>): seq<RouteState> {
    if routers == [] then []
    else
      var ip := ParseIPv4(routers[0].ip);
      (if ip.Some? then [RouteState(net, ip.value)] else []) + ThroughRouters(net, routers[1..])
  }

  /** The routes for every prefix that parses, through every router. */
  function RoutesFor(cidrs: seq<string>, routers: seq<Allocation>): seq<RouteState> {
    if cidrs == [] then []
    else
      var c := ParseCIDR(cidrs[0]);
      (if c.Some? then ThroughRouters(NetOf(c.value), routers) else []) + RoutesFor(cidrs[1..], routers)
  }

  function FindExtraRoute(routes: seq<ExtraRoute>, name: string): Option<ExtraRoute> {
    if routes == [] then None
    else if routes[0].name == name then Some(routes[0])
    else FindExtraRoute(routes[1..], name)
  }

  /** The optional routes a member asks for, through the pods that offer them. */
  function ExtraRoutes(names: seq<string>, spec: Spec, st: Status): seq<RouteState> {
    if names == [] then []
    else
      var extra := FindExtraRoute(spec.optionalRoutes, names[0]);
      (if extra.None? then [] else RoutesFor(extra.value.routableCIDRs, Under(st.optionalRouters, extra.value.name)))
      + ExtraRoutes(names[1..], spec, st)
  }

  /** A wanted route comes from one of the prefixes and one of the routers. */
  ghost predicate FromPrefixAndRouter(t: RouteState, cidrs: seq<string>, routers: seq<Allocation>) {
    exists cidr, rt :: cidr in cidrs && rt in routers
      && ParseCIDR(cidr).Some? && NetIs(t.net, ParseCIDR(cidr).value) && ParseIPv4(rt.ip) == Some(t.router)
  }

  lemma {:induction false} ThroughRoutersExact(net: IPNet, routers: seq<Allocation>, t: RouteState)
    ensures t in ThroughRouters(net, routers) <==>
      t.net == net && exists rt :: rt in routers && ParseIPv4(rt.ip) == Some(t.router)
  {
    hide ParseIPv4;
    if routers != [] {
      ThroughRoutersExact(net, routers[1..], t);
      assert routers == [routers[0]] + routers[1..];
    }
  }

  /** The wanted routes are all combinations of a valid prefix and a router with a valid address. */
  lemma {:induction false} RoutesForExact(cidrs: seq<string>, routers: seq<Allocation>, t: RouteState)
    ensures t in RoutesFor(cidrs, routers) <==> FromPrefixAndRouter(t, cidrs, routers)
  {
    hide ParseCIDR, ParseIPv4, NetOf, NetIs, ThroughRouters;
    if cidrs != [] {
      RoutesForExact(cidrs[1..], routers, t);
      assert cidrs == [cidrs[0]] + cidrs[1..];
      var c := ParseCIDR(cidrs[0]);
      if c.Some? {
        NetOfExactly(t.net, c.value);
        ThroughRoutersExact(NetOf(c.value), routers, t);
      }
    }
  }

  /** The first optional route of the name is at this place of the list. */
  ghost predicate FirstNamed(routes: seq<ExtraRoute>, i: nat, name: string) {
    i < |routes| && routes[i].name == name && forall j :: 0 <= j < i ==> routes[j].name != name
  }

  lemma {:induction false} FindExtraRouteExact(routes: seq<ExtraRoute>, name: string)
    ensures match FindExtraRoute(routes, name)
      case Some(extra) => exists i: nat :: FirstNamed(routes, i, name) && routes[i] == extra
      case None => forall i :: 0 <= i < |routes| ==> routes[i].name != name
  {
    if routes != [] && routes[0].name != name {
      FindExtraRouteExact(routes[1..], name);
      if FindExtraRoute(routes[1..], name).Some? {
        var i: nat :| FirstNamed(routes[1..], i, name) && routes[1..][i] == FindExtraRoute(routes[1..], name).value;
        assert FirstNamed(routes, i + 1, name);
      } else {
        forall i | 0 <= i < |routes| ensures routes[i].name != name {
          if i > 0 { assert routes[i] == routes[1..][i - 1]; }
        }
      }
    } else if routes != [] {
      assert FirstNamed(routes, 0, name);
    }
  }

  /** The route goes to a prefix of the first optional route of the name, through a pod that offers it. */
  ghost predicate FromOptionalRoute(t: RouteState, name: string, spec: Spec, st: Status) {
    exists i: nat :: FirstNamed(spec.optionalRoutes, i, name)
      && FromPrefixAndRouter(t, spec.optionalRoutes[i].routableCIDRs, Under(st.optionalRouters, name))
  }

  lemma OptionalRouteExact(name: string, spec: Spec, st: Status, t: RouteState)
    ensures var extra := FindExtraRoute(spec.optionalRoutes, name);
      FromOptionalRoute(t, name, spec, st)
      <==> extra.Some? && t in RoutesFor(extra.value.routableCIDRs, Under(st.optionalRouters, extra.value.name))
  {
    hide RoutesFor, FindExtraRoute, FromPrefixAndRouter;
    FindExtraRouteExact(spec.optionalRoutes, name);
    var extra := FindExtraRoute(spec.optionalRoutes, name);
    if extra.Some? {
      RoutesForExact(extra.value.routableCIDRs, Under(st.optionalRouters, name), t);
      var i: nat :| FirstNamed(spec.optionalRoutes, i, name) && spec.optionalRoutes[i] == extra.value;
      assert forall j: nat :: FirstNamed(spec.optionalRoutes, j, name) ==> j == i;
    }
  }

  /** The optional routes are those of the names asked for, through the pods listed under the same name. */
  lemma {:induction false} ExtraRoutesExact(names: seq<string>, spec: Spec, st: Status, t: RouteState)
    ensures t in ExtraRoutes(names, spec, st) <==> exists name :: name in names && FromOptionalRoute(t, name, spec, st)
  {
    hide RoutesFor, FindExtraRoute, FromOptionalRoute;
    if names != [] {
      ExtraRoutesExact(names[1..], spec, st, t);
      assert names == [names[0]] + names[1..];
      OptionalRouteExact(names[0], spec, st, t);
    }
  }

  // ---------- one link ----------

  /** The network whose link-scope route belongs to the sidecar itself: the pool for members, the peer for routers. */
  function OwnedNet(info: LinkInfo, pool: IPNet, isRouter: bool): IPNet {
    if isRouter then IPNet(ParseIPv4(info.inTunnelRemoteIP), 32, 32) else pool
  }

  /** The code takes the route for its own. */
  predicate Owned(r: Route, info: LinkInfo, net: IPNet) {
    r.linkScope && NetEqual(r.dst, net) && r.src == ParseIPv4(info.inTunnelLocalIP)
  }

  function OwnRoute(info: LinkInfo, net: IPNet): Route {
    Route(true, net, None, ParseIPv4(info.inTunnelLocalIP))
  }

  function AsRoute(t: RouteState, info: LinkInfo): Route {
    Route(false, t.net, Some(t.router), ParseIPv4(info.inTunnelLocalIP))
  }

  function FindMatch(targets: seq<RouteState>, r: Route): (t: Option<RouteState>)
    ensures t.Some? ==> t.value in targets && Matches(r, t.value)
    ensures t.None? ==> forall u :: u in targets ==> !Matches(r, u)
  {
    if targets == [] then None
    else if Matches(r, targets[0]) then Some(targets[0])
    else FindMatch(targets[1..], r)
  }

  /** The routes left by the diff: the sidecar's own, those that pass for a wanted one, and the missing wanted ones. */
  ghost predicate Diffed(before: set<Route>, after: set<Route>, info: LinkInfo, net: IPNet, targets: set<RouteState>) {
    && (exists r :: r in after && Owned(r, info, net))
    && (forall r :: r in before && Owned(r, info, net) ==> r in after)
    && (forall r :: r in before && !Owned(r, info, net) ==> (r in after <==> exists t :: t in targets && Matches(r, t)))
    && (forall t :: t in targets && !Passing(before, info, net, t) ==> AsRoute(t, info) in after)
    && (forall r :: r in after && r !in before ==>
          || r == OwnRoute(info, net)
          || exists t :: t in targets && r == AsRoute(t, info) && !Passing(before, info, net, t))
  }

  /** Some route that is not the sidecar's own passes for the wanted one. */
  ghost predicate Passing(routes: set<Route>, info: LinkInfo, net: IPNet, t: RouteState) {
    exists r :: r in routes && !Owned(r, info, net) && Matches(r, t)
  }

  /** The routes not owned and the wanted routes cover each other, by gateway and mask size. */
  ghost predicate Covered(routes: set<Route>, info: LinkInfo, net: IPNet, targets: set<RouteState>) {
    && (forall r :: r in routes && !Owned(r, info, net) ==> exists t :: t in targets && Matches(r, t))
    && (forall t :: t in targets ==> Passing(routes, info, net, t))
  }

  lemma DiffedIsCovered(before: set<Route>, after: set<Route>, info: LinkInfo, net: IPNet, targets: set<RouteState>)
    requires Diffed(before, after, info, net, targets)
    ensures Covered(after, info, net, targets)
  {
    hide ParseIPv4;
    forall t | t in targets ensures Passing(after, info, net, t) {
      if Passing(before, info, net, t) {
        var r :| r in before && !Owned(r, info, net) && Matches(r, t);
        assert r in after;
      } else {
        assert Matches(AsRoute(t, info), t) && !Owned(AsRoute(t, info), info, net);
      }
    }
    forall r | r in after && !Owned(r, info, net) ensures exists t :: t in targets && Matches(r, t) {
      if r !in before {
        assert Owned(OwnRoute(info, net), info, net);
        var t :| t in targets && r == AsRoute(t, info);
        assert Matches(r, t);
      }
    }
  }

  /** The destination of a wanted route is really reached: a route with its network and its gateway exists. */
  ghost predicate Reached(routes: set<Route>, t: RouteState) {
    exists r :: r in routes && !r.linkScope && r.dst == t.net && r.gw == Some(t.router)
  }

  /**
   Because addresses are not compared, a wanted destination may stay without its route: after
   the diff it is reached exactly if it was reached before or nothing else passed for it.
   */
  lemma ReachedExactly(before: set<Route>, after: set<Route>, info: LinkInfo, net: IPNet, targets: set<RouteState>,
                       t: RouteState)
    requires Diffed(before, after, info, net, targets) && t in targets
    ensures Reached(after, t) <==> Reached(before, t) || !Passing(before, info, net, t)
  {
    hide ParseIPv4;
    if Reached(before, t) {
      var r :| r in before && !r.linkScope && r.dst == t.net && r.gw == Some(t.router);
      assert !Owned(r, info, net) && Matches(r, t);
      assert r in after;
    }
    if !Passing(before, info, net, t) { assert AsRoute(t, info) in after; }
    if Reached(after, t) && !Reached(before, t) {
      var r :| r in after && !r.linkScope && r.dst == t.net && r.gw == Some(t.router);
      assert r !in before;
      var u :| u in targets && r == AsRoute(u, info) && !Passing(before, info, net, u);
      assert u == t;
    }
  }

  /** A history of the routes of one link, each the diff of the one before against the same wanted routes. */
  ghost predicate Diffs(history: seq<set<Route>>, info: LinkInfo, net: IPNet, targets: set<RouteState>) {
    forall i :: 0 < i < |history| ==> Diffed(history[i - 1], history[i], info, net, targets)
  }

  /** The same after any number of diffs: a wanted destination that the first one does not reach is never reached. */
  lemma {:induction false} ReachedForever(history: seq<set<Route>>, k: nat, info: LinkInfo, net: IPNet,
                                          targets: set<RouteState>, t: RouteState)
    requires 0 < k < |history| && Diffs(history, info, net, targets) && t in targets
    ensures Reached(history[k], t) <==> Reached(history[0], t) || !Passing(history[0], info, net, t)
    ensures Passing(history[k], info, net, t)
  {
    hide ParseIPv4, Diffed, Reached, Passing, Covered;
    ReachedExactly(history[k - 1], history[k], info, net, targets, t);
    DiffPasses(history[k - 1], history[k], info, net, targets, t);
    if k > 1 { ReachedForever(history, k - 1, info, net, targets, t); }
  }

  lemma DiffPasses(before: set<Route>, after: set<Route>, info: LinkInfo, net: IPNet, targets: set<RouteState>,
                   t: RouteState)
    requires Diffed(before, after, info, net, targets) && t in targets
    ensures Passing(after, info, net, t)
  {
    hide Diffed;
    DiffedIsCovered(before, after, info, net, targets);
  }

  /**
   Two wanted routes that pass for each other: if nothing passes for them at first, both get their
   routes with the first diff; otherwise each is reached exactly if it was, after any number of diffs.
   */
  lemma SameClassFate(history: seq<set<Route>>, k: nat, info: LinkInfo, net: IPNet, targets: set<RouteState>,
                      t: RouteState, u: RouteState)
    requires 0 < k < |history| && Diffs(history, info, net, targets)
    requires t in targets && u in targets
    requires t.router == u.router && t.net.ones == u.net.ones && t.net.bits == u.net.bits
    ensures Passing(history[0], info, net, t) <==> Passing(history[0], info, net, u)
    ensures if Passing(history[0], info, net, t) then
        && (Reached(history[k], t) <==> Reached(history[0], t))
        && (Reached(history[k], u) <==> Reached(history[0], u))
      else Reached(history[k], t) && Reached(history[k], u)
  {
    hide ParseIPv4, Diffs, Reached, Passing;
    if Passing(history[0], info, net, t) { SameClassPasses(history[0], info, net, t, u); }
    if Passing(history[0], info, net, u) { SameClassPasses(history[0], info, net, u, t); }
    ReachedForever(history, k, info, net, targets, t);
    ReachedForever(history, k, info, net, targets, u);
  }

  lemma SameClassPasses(routes: set<Route>, info: LinkInfo, net: IPNet, t: RouteState, u: RouteState)
    requires SameClass(t, u) && Passing(routes, info, net, t)
    ensures Passing(routes, info, net, u)
  {
    hide ParseIPv4, Owned;
    var r :| r in routes && !Owned(r, info, net) && Matches(r, t);
    assert Matches(r, u);
  }

  lemma ReachedPasses(routes: set<Route>, info: LinkInfo, net: IPNet, t: RouteState)
    requires Reached(routes, t)
    ensures Passing(routes, info, net, t)
  {
    hide ParseIPv4;
    var r :| r in routes && !r.linkScope && r.dst == t.net && r.gw == Some(t.router);
    assert !Owned(r, info, net) && Matches(r, t);
  }

  /**
   Once one prefix has its route and a second one of the same size behind the same router has
   none, the second never gets one.
   */
  lemma SecondPrefixUnreached(history: seq<set<Route>>, k: nat, info: LinkInfo, net: IPNet, targets: set<RouteState>,
                              t: RouteState, u: RouteState)
    requires k < |history| && Diffs(history, info, net, targets)
    requires u in targets && t.router == u.router && t.net.ones == u.net.ones && t.net.bits == u.net.bits
    requires Reached(history[0], t) && !Reached(history[0], u)
    ensures !Reached(history[k], u)
  {
    hide ParseIPv4, Diffed, Reached, Passing;
    ReachedPasses(history[0], info, net, t);
    SameClassPasses(history[0], info, net, t, u);
    if k > 0 { ReachedForever(history, k, info, net, targets, u); }
  }

  // ---------- the diff of one link, in place ----------

  /** A route that has to go. */
  predicate Unwanted(r: Route, info: LinkInfo, net: IPNet, targets: seq<RouteState>) {
    !Owned(r, info, net) && FindMatch(targets, r).None?
  }

  /** The routes after the unwanted ones among those looked at are gone. */
  ghost function Purged(before: set<Route>, looked: set<Route>, info: LinkInfo, net: IPNet,
                        targets: seq<RouteState>): set<Route>
  {
    set r | r in before && !(r in looked && Unwanted(r, info, net, targets))
  }

  /** What the first loop has recorded about the routes it has looked at. */
  ghost predicate Recorded(looked: set<Route>, info: LinkInfo, net: IPNet, targets: seq<RouteState>,
                           processed: seq<RouteState>, found: bool)
  {
    && (found <==> exists r :: r in looked && Owned(r, info, net))
    && (forall t :: t in targets ==> (Passing(looked, info, net, t) <==> exists p :: p in processed && SameClass(p, t)))
  }

  lemma RecordedOneMore(looked: set<Route>, info: LinkInfo, net: IPNet, targets: seq<RouteState>,
                        processed: seq<RouteState>, found: bool, r: Route)
    requires Recorded(looked, info, net, targets, processed, found)
    ensures var m := FindMatch(targets, r);
      Recorded(looked + {r}, info, net, targets,
               if !Owned(r, info, net) && m.Some? then processed + [m.value] else processed,
               found || Owned(r, info, net))
  {
    hide ParseIPv4, Owned;
    var m := FindMatch(targets, r);
    var more := if !Owned(r, info, net) && m.Some? then processed + [m.value] else processed;
    forall t | t in targets
      ensures Passing(looked + {r}, info, net, t) <==> exists p :: p in more && SameClass(p, t)
    {
      PassingOneMore(looked, info, net, t, r);
      if exists p :: p in processed && SameClass(p, t) {
        var p :| p in processed && SameClass(p, t);
        assert p in more;
      }
      if !Owned(r, info, net) && m.Some? {
        assert m.value in more;
        assert SameClass(m.value, t) <==> Matches(r, t);
      }
    }
  }

  lemma PassingOneMore(looked: set<Route>, info: LinkInfo, net: IPNet, t: RouteState, r: Route)
    ensures Passing(looked + {r}, info, net, t)
      <==> Passing(looked, info, net, t) || (!Owned(r, info, net) && Matches(r, t))
  {
    hide ParseIPv4, Owned;
    if Passing(looked, info, net, t) {
      var q :| q in looked && !Owned(q, info, net) && Matches(q, t);
      assert q in looked + {r};
    }
    if !Owned(r, info, net) && Matches(r, t) { assert r in looked + {r}; }
  }

  lemma PurgedOneMore(before: set<Route>, looked: set<Route>, info: LinkInfo, net: IPNet, targets: seq<RouteState>,
                      r: Route)
    ensures Purged(before, looked + {r}, info, net, targets)
      == if Unwanted(r, info, net, targets) then Purged(before, looked, info, net, targets) - {r}
         else Purged(before, looked, info, net, targets)
  {
    hide Unwanted;
  }

  /** The first loop of reconcileRoutes over the routes of one link. */
  method PurgeRoutes(kernel: Netlink, name: string, info: LinkInfo, net: IPNet, targets: seq<RouteState>)
    returns (ok: bool, processed: seq<RouteState>, found: bool)
    modifies kernel
    ensures kernel.faults >= old(kernel.faults)
    ensures ok <==> kernel.faults == old(kernel.faults) && name in old(kernel.links)
    ensures OthersSame(old(kernel.links), kernel.links, name)
    ensures name in old(kernel.links) ==> RoutesOnly(old(kernel.links), kernel.links, name)
    ensures name !in old(kernel.links) ==> kernel.links == old(kernel.links)
    ensures ok ==> var all := old(kernel.links)[name].routes;
      && kernel.links[name].routes == Purged(all, all, info, net, targets)
      && Recorded(all, info, net, targets, processed, found)
  {
    hide Purged, Recorded, Owned, ParseIPv4, FindMatch, Unwanted;
    ghost var before := kernel.links;
    processed := [];
    found := false;
    var routes: seq<Route>;
    ok, routes := kernel.RouteList(name);
    if !ok { return; }
    ghost var all := before[name].routes;
    NothingLooked(all, info, net, targets);
    assert Elements(routes[..0]) == {};
    for i := 0 to |routes|
      invariant kernel.faults == old(kernel.faults)
      invariant OthersSame(before, kernel.links, name) && RoutesOnly(before, kernel.links, name)
      invariant kernel.links[name].routes == Purged(all, Elements(routes[..i]), info, net, targets)
      invariant Recorded(Elements(routes[..i]), info, net, targets, processed, found)
    {
      var r := routes[i];
      assert Elements(routes[..i + 1]) == Elements(routes[..i]) + {r};
      RecordedOneMore(Elements(routes[..i]), info, net, targets, processed, found, r);
      PurgedOneMore(all, Elements(routes[..i]), info, net, targets, r);
      if Owned(r, info, net) {
        KeptWhenOwned(r, info, net, targets);
        found := true;
        continue;
      }
      var cidr := FindMatch(targets, r);
      UnwantedExactly(r, info, net, targets);
      if cidr.None? {
        assert r !in Elements(routes[..i]);
        StillThere(all, Elements(routes[..i]), info, net, targets, r);
        ok := kernel.RouteDel(name, r);
        if !ok { return; }
      } else {
        processed := processed + [cidr.value];
      }
    }
    assert routes[..|routes|] == routes && Elements(routes) == all;
  }

  lemma KeptWhenOwned(r: Route, info: LinkInfo, net: IPNet, targets: seq<RouteState>)
    requires Owned(r, info, net)
    ensures !Unwanted(r, info, net, targets)
  {
  }

  lemma UnwantedExactly(r: Route, info: LinkInfo, net: IPNet, targets: seq<RouteState>)
    ensures Unwanted(r, info, net, targets) <==> !Owned(r, info, net) && FindMatch(targets, r).None?
  {
  }

  lemma StillThere(all: set<Route>, looked: set<Route>, info: LinkInfo, net: IPNet, targets: seq<RouteState>, r: Route)
    requires r in all && r !in looked
    ensures r in Purged(all, looked, info, net, targets)
  {
  }

  lemma NothingLooked(all: set<Route>, info: LinkInfo, net: IPNet, targets: seq<RouteState>)
    ensures Purged(all, {}, info, net, targets) == all
    ensures Recorded({}, info, net, targets, [], false)
  {
  }

  /** The routes of the wanted routes that nothing passed for. */
  ghost function Missing(before: set<Route>, info: LinkInfo, net: IPNet, targets: seq<RouteState>): set<Route> {
    set t | t in targets && !Passing(before, info, net, t) :: AsRoute(t, info)
  }

  lemma MissingOneMore(before: set<Route>, info: LinkInfo, net: IPNet, targets: seq<RouteState>, t: RouteState)
    ensures Missing(before, info, net, targets + [t])
      == if Passing(before, info, net, t) then Missing(before, info, net, targets)
         else Missing(before, info, net, targets) + {AsRoute(t, info)}
  {
    hide Passing, ParseIPv4;
    var m, m' := Missing(before, info, net, targets), Missing(before, info, net, targets + [t]);
    forall r | r in m ensures r in m' {
      var u :| u in targets && !Passing(before, info, net, u) && r == AsRoute(u, info);
      assert u in targets + [t];
    }
    if !Passing(before, info, net, t) { assert t in targets + [t] && AsRoute(t, info) in m'; }
    forall r | r in m' && !(r in m) ensures !Passing(before, info, net, t) && r == AsRoute(t, info) {
      var u :| u in targets + [t] && !Passing(before, info, net, u) && r == AsRoute(u, info);
    }
  }

  /** The route at this place of the list is missing and was in the list before; the kernel refuses to add it twice. */
  ghost predicate RepeatsAt(before: set<Route>, info: LinkInfo, net: IPNet, targets: seq<RouteState>, j: nat)
    requires j < |targets|
  {
    !Passing(before, info, net, targets[j]) && targets[j] in targets[..j]
  }

  ghost predicate Repeats(before: set<Route>, info: LinkInfo, net: IPNet, targets: seq<RouteState>) {
    exists j :: 0 <= j < |targets| && RepeatsAt(before, info, net, targets, j)
  }

  /** The missing routes are those of the list up to a repetition. */
  ghost predicate StoppedAtRepeat(start: set<Route>, after: set<Route>, before: set<Route>, info: LinkInfo, net: IPNet,
                                  targets: seq<RouteState>)
  {
    exists j :: 0 <= j < |targets| && RepeatsAt(before, info, net, targets, j)
      && after == start + Missing(before, info, net, targets[..j])
  }

  lemma MissingHas(before: set<Route>, info: LinkInfo, net: IPNet, targets: seq<RouteState>, t: RouteState)
    ensures AsRoute(t, info) in Missing(before, info, net, targets) <==> t in targets && !Passing(before, info, net, t)
  {
    hide Passing, ParseIPv4;
    forall u | u in targets && AsRoute(u, info) == AsRoute(t, info) ensures u == t {}
  }

  /** None of the missing routes is there yet. */
  ghost predicate NoneYet(start: set<Route>, before: set<Route>, info: LinkInfo, net: IPNet, targets: seq<RouteState>) {
    forall t :: t in targets && !Passing(before, info, net, t) ==> AsRoute(t, info) !in start
  }

  /**
   The second loop: add the wanted routes that nothing passed for. Without a fault it fails exactly
   if a missing route is wanted twice, after it has added the routes before the repetition.
   */
  method AddMissing(kernel: Netlink, name: string, info: LinkInfo, ghost net: IPNet, ghost before: set<Route>,
                    targets: seq<RouteState>, processed: seq<RouteState>, ghost found: bool) returns (ok: bool)
    requires name in kernel.links && Recorded(before, info, net, targets, processed, found)
    requires NoneYet(kernel.links[name].routes, before, info, net, targets)
    modifies kernel
    ensures kernel.faults >= old(kernel.faults)
    ensures ok <==> kernel.faults == old(kernel.faults) && !Repeats(before, info, net, targets)
    ensures OthersSame(old(kernel.links), kernel.links, name) && RoutesOnly(old(kernel.links), kernel.links, name)
    ensures ok ==> kernel.links[name].routes == old(kernel.links)[name].routes + Missing(before, info, net, targets)
    ensures !ok && kernel.faults == old(kernel.faults) ==>
      StoppedAtRepeat(old(kernel.links)[name].routes, kernel.links[name].routes, before, info, net, targets)
  {
    hide Missing, Passing, ParseIPv4;
    ghost var start := kernel.links[name].routes;
    assert Missing(before, info, net, targets[..0]) == {} by { NothingMissing(before, info, net); }
    for i := 0 to |targets|
      invariant kernel.faults == old(kernel.faults)
      invariant OthersSame(old(kernel.links), kernel.links, name) && RoutesOnly(old(kernel.links), kernel.links, name)
      invariant kernel.links[name].routes == start + Missing(before, info, net, targets[..i])
      invariant forall j :: 0 <= j < i ==> !RepeatsAt(before, info, net, targets, j)
    {
      var t := targets[i];
      assert targets[..i + 1] == targets[..i] + [t];
      MissingOneMore(before, info, net, targets[..i], t);
      MissingHas(before, info, net, targets[..i], t);
      if exists p :: p in processed && SameClass(p, t) {
        continue;
      }
      ok := kernel.RouteAdd(name, AsRoute(t, info));
      if !ok {
        assert kernel.faults == old(kernel.faults) ==> RepeatsAt(before, info, net, targets, i);
        return;
      }
    }
    assert targets[..|targets|] == targets;
    ok := true;
  }

  lemma NothingMissing(before: set<Route>, info: LinkInfo, net: IPNet)
    ensures Missing(before, info, net, []) == {}
  {
  }

  lemma DiffDone(before: set<Route>, info: LinkInfo, net: IPNet, targets: seq<RouteState>, processed: seq<RouteState>,
                 found: bool)
    requires Recorded(before, info, net, targets, processed, found)
    ensures Diffed(before,
                   Purged(before, before, info, net, targets) + (if found then {} else {OwnRoute(info, net)})
                   + Missing(before, info, net, targets),
                   info, net, Elements(targets))
  {
    hide ParseIPv4, Passing;
    var purged := Purged(before, before, info, net, targets);
    var missing := Missing(before, info, net, targets);
    var after := purged + (if found then {} else {OwnRoute(info, net)}) + missing;
    assert Owned(OwnRoute(info, net), info, net);
    if found {
      var r :| r in before && Owned(r, info, net);
      assert r in after;
    } else {
      assert OwnRoute(info, net) in after;
    }
    forall r | r in before && !Owned(r, info, net)
      ensures r in after <==> exists t :: t in Elements(targets) && Matches(r, t)
    {
      FindMatchExact(targets, r);
      if r in missing { PassingIsNotMissing(before, info, net, targets, r); }
    }
  }

  lemma FindMatchExact(targets: seq<RouteState>, r: Route)
    ensures FindMatch(targets, r).Some? <==> exists t :: t in Elements(targets) && Matches(r, t)
  {
  }

  /** A route that was there before is never one of the missing ones. */
  lemma PassingIsNotMissing(before: set<Route>, info: LinkInfo, net: IPNet, targets: seq<RouteState>, r: Route)
    requires r in before && !Owned(r, info, net)
    ensures r !in Missing(before, info, net, targets)
  {
    hide ParseIPv4;
    forall t | t in targets && r == AsRoute(t, info) ensures Passing(before, info, net, t) { assert Matches(r, t); }
  }

  /** After the first loop none of the missing routes is there, nor is the sidecar's own if it was not found. */
  lemma PurgedNoneYet(before: set<Route>, info: LinkInfo, net: IPNet, targets: seq<RouteState>,
                      processed: seq<RouteState>, found: bool)
    requires Recorded(before, info, net, targets, processed, found)
    ensures var purged := Purged(before, before, info, net, targets);
      && (!found ==> OwnRoute(info, net) !in purged)
      && NoneYet(purged + (if found then {} else {OwnRoute(info, net)}), before, info, net, targets)
  {
    hide ParseIPv4;
    assert Owned(OwnRoute(info, net), info, net);
    forall t | t in targets && !Passing(before, info, net, t) ensures AsRoute(t, info) !in before {
      assert Matches(AsRoute(t, info), t) && !Owned(AsRoute(t, info), info, net);
    }
  }

  /** A wanted route that something passed for keeps what passes for it, and one more does now. */
  ghost predicate Nearer(before: set<Route>, after: set<Route>, info: LinkInfo, net: IPNet, targets: set<RouteState>) {
    && (forall t :: t in targets && Passing(before, info, net, t) ==> Passing(after, info, net, t))
    && (exists t :: t in targets && !Passing(before, info, net, t) && Passing(after, info, net, t))
  }

  lemma PurgedPasses(before: set<Route>, after: set<Route>, info: LinkInfo, net: IPNet, targets: seq<RouteState>,
                     t: RouteState)
    requires Purged(before, before, info, net, targets) <= after && t in targets && Passing(before, info, net, t)
    ensures Passing(after, info, net, t)
  {
    hide ParseIPv4, Owned;
    var r :| r in before && !Owned(r, info, net) && Matches(r, t);
    FindMatchExact(targets, r);
    assert t in Elements(targets);
    assert r in Purged(before, before, info, net, targets);
  }

  lemma StoppedIsNearer(before: set<Route>, start: set<Route>, after: set<Route>, info: LinkInfo, net: IPNet,
                        targets: seq<RouteState>)
    requires Purged(before, before, info, net, targets) <= start
    requires StoppedAtRepeat(start, after, before, info, net, targets)
    ensures Nearer(before, after, info, net, Elements(targets))
  {
    hide ParseIPv4, Missing, Purged, Passing;
    forall t | t in Elements(targets) && Passing(before, info, net, t) ensures Passing(after, info, net, t) {
      PurgedPasses(before, after, info, net, targets, t);
    }
    var j :| 0 <= j < |targets| && RepeatsAt(before, info, net, targets, j)
      && after == start + Missing(before, info, net, targets[..j]);
    var t := targets[j];
    MissingHas(before, info, net, targets[..j], t);
    AddedPasses(after, info, net, t);
    assert t in Elements(targets) && !Passing(before, info, net, t) && Passing(after, info, net, t);
  }

  lemma AddedPasses(routes: set<Route>, info: LinkInfo, net: IPNet, t: RouteState)
    requires AsRoute(t, info) in routes
    ensures Passing(routes, info, net, t)
  {
    hide ParseIPv4;
    assert Matches(AsRoute(t, info), t) && !Owned(AsRoute(t, info), info, net);
  }

  /**
   reconcileRoutes for one link. Without a fault it fails exactly if the link is not there or a
   missing route is in the list twice, and then at least one more wanted route is in place.
   */
  method ReconcileLinkRoutes(kernel: Netlink, name: string, info: LinkInfo, net: IPNet, targets: seq<RouteState>)
    returns (ok: bool)
    modifies kernel
    ensures kernel.faults >= old(kernel.faults)
    ensures ok <==>
      && kernel.faults == old(kernel.faults) && name in old(kernel.links)
      && !Repeats(old(kernel.links)[name].routes, info, net, targets)
    ensures OthersSame(old(kernel.links), kernel.links, name)
    ensures name in old(kernel.links) ==> RoutesOnly(old(kernel.links), kernel.links, name)
    ensures name !in old(kernel.links) ==> kernel.links == old(kernel.links)
    ensures ok ==> Diffed(old(kernel.links)[name].routes, kernel.links[name].routes, info, net, Elements(targets))
    ensures !ok && kernel.faults == old(kernel.faults) && name in old(kernel.links) ==>
      Nearer(old(kernel.links)[name].routes, kernel.links[name].routes, info, net, Elements(targets))
  {
    hide Diffed, Purged, Missing, Recorded, ParseIPv4, Repeats, Nearer, NoneYet, StoppedAtRepeat;
    ghost var before := kernel.links;
    ok := kernel.LinkByName(name);
    if !ok { return; }
    var processed: seq<RouteState>, found: bool;
    ok, processed, found := PurgeRoutes(kernel, name, info, net, targets);
    if !ok { return; }
    ghost var all := before[name].routes;
    DiffDone(all, info, net, targets, processed, found);
    PurgedNoneYet(all, info, net, targets, processed, found);
    if !found {
      ok := kernel.RouteAdd(name, OwnRoute(info, net));
      if !ok { return; }
    }
    ghost var start := kernel.links[name].routes;
    assert start == Purged(all, all, info, net, targets) + (if found then {} else {OwnRoute(info, net)});
    ok := AddMissing(kernel, name, info, net, all, targets, processed, found);
    if !ok && kernel.faults == old(kernel.faults) {
      StoppedIsNearer(all, start, kernel.links[name].routes, info, net, targets);
    }
  }
}
