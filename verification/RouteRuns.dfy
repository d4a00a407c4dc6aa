/**
 reconcileRoutes over all target links of a network. The list of wanted routes grows with every
 link, which decides whether a run over several links can succeed.
 */
module RouteRuns {
  import opened Wrappers
  import opened Addresses
  import opened PickIP
  import opened Api
  import opened Ipam
  import opened Kernel
  import opened Tunnels
  import opened Routes

  /** The wanted routes of every link, as a set. */
  function WantedRoutes(spec: Spec, st: Status, isRouter: bool, extra: seq<RouteState>): set<RouteState> {
    Elements(extra) + (if isRouter then {} else Elements(RoutesFor(spec.routableCIDRs, st.routers)))
  }

  /** The links outside the target are as before, the others differ at most in their routes. */
  ghost predicate OnlyTargetRoutes(before: map<string, Device>, after: map<string, Device>,
                                   target: map<string, LinkInfo>)
  {
    && before.Keys == after.Keys
    && forall n :: n in before ==> if n in target then RoutesOnly(before, after, n) else after[n] == before[n]
  }

  /** The routes of the link are those of the diff. */
  ghost predicate LinkDone(before: map<string, Device>, after: map<string, Device>, n: string, info: LinkInfo,
                           pool: IPNet, isRouter: bool, wanted: set<RouteState>)
  {
    && n in before && n in after
    && Diffed(before[n].routes, after[n].routes, info, OwnedNet(info, pool, isRouter), wanted)
  }

  /** The wanted routes that nothing on the link passes for. */
  ghost function Unrouted(links: map<string, Device>, n: string, info: LinkInfo, pool: IPNet, isRouter: bool,
                          wanted: set<RouteState>): set<RouteState>
  {
    set t | t in wanted && !(n in links && Passing(links[n].routes, info, OwnedNet(info, pool, isRouter), t))
  }

  /** No link has lost a route that passes for a wanted one, and one link has gained one. */
  ghost predicate FewerUnrouted(before: map<string, Device>, after: map<string, Device>, target: map<string, LinkInfo>,
                                pool: IPNet, isRouter: bool, wanted: set<RouteState>)
  {
    && (forall n :: n in target ==>
          Unrouted(after, n, target[n], pool, isRouter, wanted)
          <= Unrouted(before, n, target[n], pool, isRouter, wanted))
    && (exists n :: n in target &&
          Unrouted(after, n, target[n], pool, isRouter, wanted)
          < Unrouted(before, n, target[n], pool, isRouter, wanted))
  }

  /** A link of a member that needs a route to one of the routable prefixes. */
  ghost predicate NeedsRoute(links: map<string, Device>, n: string, info: LinkInfo, pool: IPNet, spec: Spec, st: Status)
  {
    exists t :: t in RoutesFor(spec.routableCIDRs, st.routers) && t in Unrouted(links, n, info, pool, false, {t})
  }

  ghost predicate AtMostOneNeedsRoute(links: map<string, Device>, target: map<string, LinkInfo>, pool: IPNet,
                                      spec: Spec, st: Status)
  {
    forall m, n ::
      && m in target && NeedsRoute(links, m, target[m], pool, spec, st)
      && n in target && NeedsRoute(links, n, target[n], pool, spec, st)
      ==> m == n
  }

  lemma DoneHasNoneUnrouted(before: map<string, Device>, after: map<string, Device>, n: string, info: LinkInfo,
                            pool: IPNet, isRouter: bool, wanted: set<RouteState>)
    requires LinkDone(before, after, n, info, pool, isRouter, wanted)
    ensures Unrouted(after, n, info, pool, isRouter, wanted) == {}
  {
    hide Diffed, OwnedNet, Passing;
    DiffedIsCovered(before[n].routes, after[n].routes, info, OwnedNet(info, pool, isRouter), wanted);
  }

  lemma NearerHasFewer(before: map<string, Device>, after: map<string, Device>, n: string, info: LinkInfo,
                       pool: IPNet, isRouter: bool, wanted: set<RouteState>)
    requires n in before && n in after
    requires Nearer(before[n].routes, after[n].routes, info, OwnedNet(info, pool, isRouter), wanted)
    ensures Unrouted(after, n, info, pool, isRouter, wanted) < Unrouted(before, n, info, pool, isRouter, wanted)
  {
    hide OwnedNet, Passing;
    var t :| t in wanted && !Passing(before[n].routes, info, OwnedNet(info, pool, isRouter), t)
      && Passing(after[n].routes, info, OwnedNet(info, pool, isRouter), t);
    assert t in Unrouted(before, n, info, pool, isRouter, wanted);
    assert t !in Unrouted(after, n, info, pool, isRouter, wanted);
  }

  // ---------- the growing list ----------

  function Times(r: seq<RouteState>, k: nat): seq<RouteState> {
    if k == 0 then [] else Times(r, k - 1) + r
  }

  /** Some route of the list is missing. */
  ghost predicate SomeMissing(before: set<Route>, info: LinkInfo, net: IPNet, r: seq<RouteState>) {
    exists t :: t in r && !Passing(before, info, net, t)
  }

  /** Appending routes that the list has already makes it repeat a missing one if any of them is missing. */
  lemma AgainRepeats(before: set<Route>, info: LinkInfo, net: IPNet, list: seq<RouteState>, r: seq<RouteState>)
    requires SomeMissing(before, info, net, r) && forall t :: t in r ==> t in list
    ensures Repeats(before, info, net, list + r)
  {
    hide Passing;
    var t :| t in r && !Passing(before, info, net, t);
    var i :| 0 <= i < |r| && r[i] == t;
    var h :| 0 <= h < |list| && list[h] == t;
    var j := |list| + i;
    assert (list + r)[j] == t && (list + r)[..j][h] == t;
    assert RepeatsAt(before, info, net, list + r, j);
  }

  /** Appending routes none of which is missing changes nothing. */
  lemma RestRepeats(before: set<Route>, info: LinkInfo, net: IPNet, list: seq<RouteState>, r: seq<RouteState>)
    requires !SomeMissing(before, info, net, r)
    ensures Repeats(before, info, net, list + r) <==> Repeats(before, info, net, list)
  {
    hide Passing;
    var all := list + r;
    forall j | 0 <= j < |list| ensures RepeatsAt(before, info, net, all, j) <==> RepeatsAt(before, info, net, list, j) {
      assert all[..j] == list[..j] && all[j] == list[j];
    }
    forall j | |list| <= j < |all| ensures !RepeatsAt(before, info, net, all, j) {
      assert all[j] == r[j - |list|];
    }
  }

  /** Two copies of the routes repeat a missing one exactly if one copy does or one of them is missing. */
  lemma TwoCopies(before: set<Route>, info: LinkInfo, net: IPNet, extra: seq<RouteState>, r: seq<RouteState>)
    ensures Repeats(before, info, net, extra + r + r)
      <==> Repeats(before, info, net, extra + r) || SomeMissing(before, info, net, r)
  {
    hide Passing, Repeats;
    if SomeMissing(before, info, net, r) {
      AgainRepeats(before, info, net, extra + r, r);
    } else {
      RestRepeats(before, info, net, extra + r, r);
    }
  }

  /** From two copies on, further copies change nothing. */
  lemma {:induction false} ManyCopies(before: set<Route>, info: LinkInfo, net: IPNet, extra: seq<RouteState>,
                                      r: seq<RouteState>, k: nat)
    requires k >= 2
    ensures Repeats(before, info, net, extra + Times(r, k)) <==> Repeats(before, info, net, extra + r + r)
  {
    hide Passing, Repeats, SomeMissing;
    assert extra + Times(r, k) == extra + Times(r, k - 1) + r;
    if k == 2 {
      assert Times(r, 0) + r == r;
      assert Times(r, 1) == r;
    } else {
      ManyCopies(before, info, net, extra, r, k - 1);
      if SomeMissing(before, info, net, r) {
        InCopies(extra, r, k - 1);
        AgainRepeats(before, info, net, extra + Times(r, k - 1), r);
        TwoCopies(before, info, net, extra, r);
      } else {
        RestRepeats(before, info, net, extra + Times(r, k - 1), r);
      }
    }
  }

  lemma InCopies(extra: seq<RouteState>, r: seq<RouteState>, k: nat)
    requires k > 0
    ensures forall t :: t in r ==> t in extra + Times(r, k)
  {
  }

  /** The list that decides about a link: one copy of the routable routes for the first link of a member, else two. */
  function ListFor(extra: seq<RouteState>, routable: seq<RouteState>, isRouter: bool, isFirst: bool): seq<RouteState> {
    if isRouter then extra else if isFirst then extra + routable else extra + routable + routable
  }

  lemma ListGrown(before: set<Route>, info: LinkInfo, net: IPNet, extra: seq<RouteState>, routable: seq<RouteState>,
                  isRouter: bool, k: nat)
    requires k > 0
    ensures Repeats(before, info, net, extra + Times(if isRouter then [] else routable, k))
      <==> Repeats(before, info, net, ListFor(extra, routable, isRouter, k == 1))
  {
    hide Repeats;
    if isRouter {
      NothingTimes(k);
      assert extra + [] == extra;
    } else if k == 1 {
      assert Times(routable, 0) + routable == routable;
    } else {
      ManyCopies(before, info, net, extra, routable, k);
    }
  }

  lemma {:induction false} NothingTimes(k: nat)
    ensures Times([], k) == []
  {
    if k > 0 { NothingTimes(k - 1); }
  }

  /** The link is there, and the list repeats no route that it misses. */
  ghost predicate LinkPasses(links: map<string, Device>, n: string, info: LinkInfo, pool: IPNet, isRouter: bool,
                             extra: seq<RouteState>, routable: seq<RouteState>, isFirst: bool)
  {
    && n in links
    && !Repeats(links[n].routes, info, OwnedNet(info, pool, isRouter), ListFor(extra, routable, isRouter, isFirst))
  }

  lemma ListDecides(links: map<string, Device>, n: string, info: LinkInfo, pool: IPNet, isRouter: bool,
                    extra: seq<RouteState>, routable: seq<RouteState>, k: nat)
    requires k > 0
    ensures (n in links
             && !Repeats(links[n].routes, info, OwnedNet(info, pool, isRouter),
                         extra + Times(if isRouter then [] else routable, k)))
      <==> LinkPasses(links, n, info, pool, isRouter, extra, routable, k == 1)
  {
    hide OwnedNet, Repeats, Times, ListFor;
    if n in links { ListGrown(links[n].routes, info, OwnedNet(info, pool, isRouter), extra, routable, isRouter, k); }
  }

  /** A run that starts with the given link comes through: every link is there and repeats no missing route. */
  ghost predicate RunPasses(links: map<string, Device>, target: map<string, LinkInfo>, pool: IPNet, isRouter: bool,
                            extra: seq<RouteState>, routable: seq<RouteState>, first: string)
  {
    forall n :: n in target ==> LinkPasses(links, n, target[n], pool, isRouter, extra, routable, n == first)
  }

  /** No link but the first of a member may need a route to one of the routable prefixes. */
  lemma PassesExactly(links: map<string, Device>, target: map<string, LinkInfo>, pool: IPNet, isRouter: bool,
                      extra: seq<RouteState>, spec: Spec, st: Status, first: string)
    ensures var r := RoutesFor(spec.routableCIDRs, st.routers);
      RunPasses(links, target, pool, isRouter, extra, r, first)
      <==>
      && ListsPass(links, target, pool, isRouter, extra, r)
      && (isRouter || forall n :: n in target && n != first ==> !NeedsRoute(links, n, target[n], pool, spec, st))
  {
    hide OwnedNet, RoutesFor, Repeats, NeedsRoute;
    var r := RoutesFor(spec.routableCIDRs, st.routers);
    forall n | n in target && n in links && !isRouter
      ensures Repeats(links[n].routes, target[n], OwnedNet(target[n], pool, false), extra + r + r)
        <==>
        || Repeats(links[n].routes, target[n], OwnedNet(target[n], pool, false), extra + r)
        || NeedsRoute(links, n, target[n], pool, spec, st)
    {
      TwoCopies(links[n].routes, target[n], OwnedNet(target[n], pool, false), extra, r);
      NeedsMissing(links, n, target[n], pool, spec, st);
    }
  }

  lemma NeedsMissing(links: map<string, Device>, n: string, info: LinkInfo, pool: IPNet, spec: Spec, st: Status)
    requires n in links
    ensures NeedsRoute(links, n, info, pool, spec, st)
      <==> SomeMissing(links[n].routes, info, OwnedNet(info, pool, false), RoutesFor(spec.routableCIDRs, st.routers))
  {
    hide OwnedNet, RoutesFor, Passing;
  }

  /** Every target link is there, and none misses a route that is in the initial list twice. */
  ghost predicate ListsPass(links: map<string, Device>, target: map<string, LinkInfo>, pool: IPNet, isRouter: bool,
                            extra: seq<RouteState>, routable: seq<RouteState>)
  {
    forall n :: n in target ==> LinkPasses(links, n, target[n], pool, isRouter, extra, routable, true)
  }

  lemma OnlyOne(keys: set<string>, f: string)
    requires |keys| == 1 && f in keys
    ensures forall n :: n in keys ==> n == f
  {
    assert keys == {f} + (keys - {f});
  }

  lemma AnotherOne(keys: set<string>, f: string)
    requires |keys| != 1 && f in keys
    ensures exists g :: g in keys && g != f
  {
    assert keys == {f} + (keys - {f});
    var g :| g in keys - {f};
  }

  /** Whichever link comes first, the run comes through: a member with more than one link needs no route at all. */
  lemma EveryOrderPasses(links: map<string, Device>, target: map<string, LinkInfo>, pool: IPNet, isRouter: bool,
                         extra: seq<RouteState>, spec: Spec, st: Status)
    requires target.Keys != {}
    ensures var r := RoutesFor(spec.routableCIDRs, st.routers);
      (forall f :: f in target ==> RunPasses(links, target, pool, isRouter, extra, r, f))
      <==>
      && ListsPass(links, target, pool, isRouter, extra, r)
      && (|| isRouter || |target.Keys| == 1
          || forall n :: n in target ==> !NeedsRoute(links, n, target[n], pool, spec, st))
  {
    hide RoutesFor, RunPasses, ListsPass, NeedsRoute;
    var r := RoutesFor(spec.routableCIDRs, st.routers);
    forall f | f in target
      ensures RunPasses(links, target, pool, isRouter, extra, r, f)
        <==>
        && ListsPass(links, target, pool, isRouter, extra, r)
        && (isRouter || forall n :: n in target && n != f ==> !NeedsRoute(links, n, target[n], pool, spec, st))
    {
      PassesExactly(links, target, pool, isRouter, extra, spec, st, f);
    }
    var f :| f in target;
    if |target.Keys| == 1 {
      OnlyOne(target.Keys, f);
    } else {
      AnotherOne(target.Keys, f);
      var g :| g in target && g != f;
      assert f in target && g in target;
    }
  }

  /** Some link can come first such that the run comes through: at most one link of a member needs a route. */
  lemma SomeOrderPasses(links: map<string, Device>, target: map<string, LinkInfo>, pool: IPNet, isRouter: bool,
                        extra: seq<RouteState>, spec: Spec, st: Status)
    requires target.Keys != {}
    ensures var r := RoutesFor(spec.routableCIDRs, st.routers);
      (exists f :: f in target && RunPasses(links, target, pool, isRouter, extra, r, f))
      <==>
      && ListsPass(links, target, pool, isRouter, extra, r)
      && (isRouter || AtMostOneNeedsRoute(links, target, pool, spec, st))
  {
    hide RoutesFor, RunPasses, ListsPass, NeedsRoute;
    var r := RoutesFor(spec.routableCIDRs, st.routers);
    forall f | f in target && RunPasses(links, target, pool, isRouter, extra, r, f)
      ensures ListsPass(links, target, pool, isRouter, extra, r)
      ensures isRouter || AtMostOneNeedsRoute(links, target, pool, spec, st)
    {
      PassesExactly(links, target, pool, isRouter, extra, spec, st, f);
    }
    if ListsPass(links, target, pool, isRouter, extra, r)
      && (isRouter || AtMostOneNeedsRoute(links, target, pool, spec, st))
    {
      var any :| any in target;
      var f := any;
      if exists n :: n in target && NeedsRoute(links, n, target[n], pool, spec, st) {
        f :| f in target && NeedsRoute(links, f, target[f], pool, spec, st);
      }
      PassesExactly(links, target, pool, isRouter, extra, spec, st, f);
    }
  }

  /**
   reconcileRoutes. The list of wanted routes grows with every link of a member, but as a set it
   is the same for all of them, so every link of a successful run ends with the diff against that
   set. The growing list makes success depend on the link that happens to come first; without a
   fault RunPasses decides. A run that fails without a fault has brought some link nearer to its
   routes and none further away.
   */
  method ReconcileRoutes(kernel: Netlink, spec: Spec, st: Status, target: map<string, LinkInfo>, isRouter: bool,
                         extra: seq<RouteState>)
    returns (ok: bool, ghost first: Option<string>)
    modifies kernel
    ensures kernel.faults >= old(kernel.faults)
    ensures first.Some? <==> target.Keys != {} && ParseCIDR(spec.allocatableCIDR).Some?
    ensures first.Some? ==> first.value in target
    ensures ok <==>
      && kernel.faults == old(kernel.faults)
      && (target.Keys == {}
          || (first.Some?
              && RunPasses(old(kernel.links), target, NetOf(ParseCIDR(spec.allocatableCIDR).value), isRouter, extra,
                           RoutesFor(spec.routableCIDRs, st.routers), first.value)))
    ensures OnlyTargetRoutes(old(kernel.links), kernel.links, target)
    ensures ok ==> forall n :: n in target ==>
      LinkDone(old(kernel.links), kernel.links, n, target[n], NetOf(ParseCIDR(spec.allocatableCIDR).value), isRouter,
               WantedRoutes(spec, st, isRouter, extra))
    ensures !ok && kernel.faults == old(kernel.faults) ==>
      || ParseCIDR(spec.allocatableCIDR).None? || !(target.Keys <= old(kernel.links).Keys)
      || FewerUnrouted(old(kernel.links), kernel.links, target, NetOf(ParseCIDR(spec.allocatableCIDR).value), isRouter,
                       WantedRoutes(spec, st, isRouter, extra))
  {
    hide Diffed, OwnedNet, NetOf, ParseCIDR, RoutesFor, Unrouted, FewerUnrouted, Repeats, Nearer, WantedRoutes, Times,
      ListFor, Elements, LinkPasses, LinkDone;
    ghost var before := kernel.links;
    ghost var wanted := WantedRoutes(spec, st, isRouter, extra);
    ghost var all := RoutesFor(spec.routableCIDRs, st.routers);
    var pool := ParseCIDR(spec.allocatableCIDR);
    var routable := if isRouter then [] else RoutesFor(spec.routableCIDRs, st.routers);
    var targetRoutes := extra;
    first := None;
    ghost var k := 0;
    var todo := target.Keys;
    NoCopies(extra, routable);
    while todo != {}
      invariant todo <= target.Keys && kernel.faults == old(kernel.faults)
      invariant OnlyTargetRoutes(before, kernel.links, target)
      invariant forall n :: n in todo && n in before ==> kernel.links[n] == before[n]
      invariant targetRoutes == extra + Times(routable, k)
      invariant if k == 0 then first == None && todo == target.Keys
        else first.Some? && first.value in target && first.value !in todo && pool.Some?
      invariant forall n :: n in target && n !in todo ==>
        && LinkDone(before, kernel.links, n, target[n], NetOf(pool.value), isRouter, wanted)
        && LinkPasses(before, n, target[n], NetOf(pool.value), isRouter, extra, all, Some(n) == first)
    {
      if pool.None? {
        return false, first;
      }
      var name :| name in todo;
      ghost var sofar := kernel.links;
      OneMoreCopy(spec, st, isRouter, extra, k);
      if !isRouter { targetRoutes := targetRoutes + routable; }
      k := k + 1;
      if first.None? { first := Some(name); }
      assert targetRoutes == extra + Times(routable, k);
      ListDecides(before, name, target[name], NetOf(pool.value), isRouter, extra, all, k);
      var owned := OwnedNet(target[name], NetOf(pool.value), isRouter);
      ok := ReconcileLinkRoutes(kernel, name, target[name], owned, targetRoutes);
      SetAside(before, sofar, kernel.links, target, name);
      StillDone(before, sofar, kernel.links, target, todo, name, NetOf(pool.value), isRouter, wanted);
      if !ok {
        if kernel.faults == old(kernel.faults) && target.Keys <= before.Keys {
          StopsNearer(before, kernel.links, target, todo, name, NetOf(pool.value), isRouter, wanted);
        }
        return;
      }
      ThisDone(before, kernel.links, name, target[name], NetOf(pool.value), isRouter, wanted);
      todo := todo - {name};
    }
    ok := true;
  }

  lemma ThisDone(before: map<string, Device>, now: map<string, Device>, name: string, info: LinkInfo, pool: IPNet,
                 isRouter: bool, wanted: set<RouteState>)
    requires name in before && name in now
    requires Diffed(before[name].routes, now[name].routes, info, OwnedNet(info, pool, isRouter), wanted)
    ensures LinkDone(before, now, name, info, pool, isRouter, wanted)
  {
  }

  /** Work on one link leaves the links done as they are. */
  lemma StillDone(before: map<string, Device>, sofar: map<string, Device>, now: map<string, Device>,
                  target: map<string, LinkInfo>, todo: set<string>, name: string, pool: IPNet, isRouter: bool,
                  wanted: set<RouteState>)
    requires name in todo && OthersSame(sofar, now, name)
    requires forall n :: n in target && n !in todo ==> LinkDone(before, sofar, n, target[n], pool, isRouter, wanted)
    ensures forall n :: n in target && n !in todo ==> LinkDone(before, now, n, target[n], pool, isRouter, wanted)
  {
    hide Diffed, OwnedNet;
  }

  lemma NoCopies(extra: seq<RouteState>, r: seq<RouteState>)
    ensures extra == extra + Times(r, 0)
  {
  }

  /** With one more copy the list stands for the wanted routes. */
  lemma OneMoreCopy(spec: Spec, st: Status, isRouter: bool, extra: seq<RouteState>, k: nat)
    ensures var r := if isRouter then [] else RoutesFor(spec.routableCIDRs, st.routers);
      && extra + Times(r, k + 1) == extra + Times(r, k) + r
      && (isRouter ==> extra + Times(r, k + 1) == extra + Times(r, k))
      && Elements(extra + Times(r, k + 1)) == WantedRoutes(spec, st, isRouter, extra)
  {
    hide RoutesFor, Elements, Times, WantedRoutes;
    var r := if isRouter then [] else RoutesFor(spec.routableCIDRs, st.routers);
    GrowingList(spec, st, isRouter, extra);
    TimesStep(extra, r, k);
    TimesElements(extra, r, k + 1);
  }

  lemma TimesStep(extra: seq<RouteState>, r: seq<RouteState>, k: nat)
    ensures extra + Times(r, k + 1) == extra + Times(r, k) + r
    ensures r == [] ==> extra + Times(r, k + 1) == extra + Times(r, k)
  {
  }

  lemma {:induction false} TimesElements(extra: seq<RouteState>, r: seq<RouteState>, k: nat)
    requires k > 0
    ensures Elements(extra + Times(r, k)) == Elements(extra + r)
  {
    hide Elements;
    TimesStep(extra, r, k - 1);
    ElementsAppend(extra + Times(r, k - 1), r);
    ElementsAppend(extra, r);
    if k > 1 { TimesElements(extra, r, k - 1); } else { NoCopies(extra, r); }
  }

  lemma GrowingList(spec: Spec, st: Status, isRouter: bool, extra: seq<RouteState>)
    ensures WantedRoutes(spec, st, isRouter, extra)
      == Elements(extra + (if isRouter then [] else RoutesFor(spec.routableCIDRs, st.routers)))
  {
    hide RoutesFor;
    var routable := if isRouter then [] else RoutesFor(spec.routableCIDRs, st.routers);
    ElementsAppend(extra, routable);
    assert Elements<RouteState>([]) == {};
  }

  /** Work on one link keeps to the routes of the target links. */
  lemma SetAside(before: map<string, Device>, sofar: map<string, Device>, now: map<string, Device>,
                 target: map<string, LinkInfo>, name: string)
    requires OnlyTargetRoutes(before, sofar, target) && name in target && OthersSame(sofar, now, name)
    requires if name in sofar then RoutesOnly(sofar, now, name) else now == sofar
    ensures OnlyTargetRoutes(before, now, target)
  {
  }

  /** The links done have no unrouted routes, the one in work has fewer, the rest are as they were. */
  lemma StopsNearer(before: map<string, Device>, now: map<string, Device>, target: map<string, LinkInfo>,
                    todo: set<string>, name: string, pool: IPNet, isRouter: bool, wanted: set<RouteState>)
    requires name in todo && name in before && name in now && name in target
    requires Nearer(before[name].routes, now[name].routes, target[name], OwnedNet(target[name], pool, isRouter), wanted)
    requires forall n :: n in target && n !in todo ==> LinkDone(before, now, n, target[n], pool, isRouter, wanted)
    requires forall n :: n in todo && n != name ==> n in before && n in now && now[n] == before[n]
    ensures FewerUnrouted(before, now, target, pool, isRouter, wanted)
  {
    hide OwnedNet, LinkDone, Nearer, Unrouted;
    NearerHasFewer(before, now, name, target[name], pool, isRouter, wanted);
    forall n | n in target
      ensures Unrouted(now, n, target[n], pool, isRouter, wanted)
        <= Unrouted(before, n, target[n], pool, isRouter, wanted)
    {
      if n !in todo {
        DoneHasNoneUnrouted(before, now, n, target[n], pool, isRouter, wanted);
      } else if n != name {
        SameUnrouted(before, now, n, target[n], pool, isRouter, wanted);
      }
    }
  }

  lemma SameUnrouted(before: map<string, Device>, now: map<string, Device>, n: string, info: LinkInfo,
                     pool: IPNet, isRouter: bool, wanted: set<RouteState>)
    requires n in before && n in now && now[n] == before[n]
    ensures Unrouted(now, n, info, pool, isRouter, wanted) == Unrouted(before, n, info, pool, isRouter, wanted)
  {
    hide OwnedNet, Passing;
  }

  lemma ElementsAppend<T>(s: seq<T>, t: seq<T>)
    ensures Elements(s + t) == Elements(s) + Elements(t)
  {
    assert forall x :: x in s + t <==> x in s || x in t;
  }

  // ---------- running it again ----------

  /** All wanted routes that are missing, with their links. */
  ghost function AllUnrouted(links: map<string, Device>, target: map<string, LinkInfo>, pool: IPNet, isRouter: bool,
                             wanted: set<RouteState>): set<(string, RouteState)>
  {
    set n, t | n in target && t in wanted && t in Unrouted(links, n, target[n], pool, isRouter, wanted) :: (n, t)
  }

  lemma FewerAllUnrouted(before: map<string, Device>, after: map<string, Device>, target: map<string, LinkInfo>,
                         pool: IPNet, isRouter: bool, wanted: set<RouteState>)
    requires FewerUnrouted(before, after, target, pool, isRouter, wanted)
    ensures |AllUnrouted(after, target, pool, isRouter, wanted)| < |AllUnrouted(before, target, pool, isRouter, wanted)|
  {
    hide Unrouted;
    var all := AllUnrouted(before, target, pool, isRouter, wanted);
    var all' := AllUnrouted(after, target, pool, isRouter, wanted);
    var n :| n in target
      && Unrouted(after, n, target[n], pool, isRouter, wanted) < Unrouted(before, n, target[n], pool, isRouter, wanted);
    var t :| t in Unrouted(before, n, target[n], pool, isRouter, wanted)
      && t !in Unrouted(after, n, target[n], pool, isRouter, wanted);
    assert t in wanted by { UnroutedAreWanted(before, n, target[n], pool, isRouter, wanted); }
    assert (n, t) in all && (n, t) !in all';
    assert all' <= all - {(n, t)};
    SubsetSize(all', all - {(n, t)});
  }

  lemma UnroutedAreWanted(links: map<string, Device>, n: string, info: LinkInfo, pool: IPNet, isRouter: bool,
                          wanted: set<RouteState>)
    ensures Unrouted(links, n, info, pool, isRouter, wanted) <= wanted
  {
  }

  /** Runs that fail without a fault, one after the other, are at most as many as there are missing routes at first. */
  lemma {:induction false} RetriesEnd(history: seq<map<string, Device>>, k: nat, target: map<string, LinkInfo>,
                                      pool: IPNet, isRouter: bool, wanted: set<RouteState>)
    requires k < |history|
    requires forall i :: 0 < i < |history| ==> FewerUnrouted(history[i - 1], history[i], target, pool, isRouter, wanted)
    ensures k + |AllUnrouted(history[k], target, pool, isRouter, wanted)|
      <= |AllUnrouted(history[0], target, pool, isRouter, wanted)|
  {
    hide FewerUnrouted, AllUnrouted;
    if k > 0 {
      RetriesEnd(history, k - 1, target, pool, isRouter, wanted);
      FewerAllUnrouted(history[k - 1], history[k], target, pool, isRouter, wanted);
    }
  }
}
