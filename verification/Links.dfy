/** Bringing the tunnel interfaces of one network to their target. */
module Links {
  import opened Wrappers
  import opened Addresses
  import opened Api
  import opened Ipam
  import opened Kernel
  import opened Tunnels

  const TTL: nat := 200

  /** What setupTunnelIface makes of a link, given the prefix length of the pool. */
  function Configured(info: LinkInfo, port: int, ones: nat, isRouter: bool): Device {
    var mask := if isRouter then 32 else ones;
    var local := ParseIPv4(info.inTunnelLocalIP);
    Device(ParseIPv4(info.localIP), ParseIPv4(info.remoteIP), port % 0x1_0000, TTL, true, [IPNet(local, mask, 32)],
           if isRouter then {Route(true, IPNet(ParseIPv4(info.inTunnelRemoteIP), mask, 32), None, local)} else {})
  }

  ghost predicate IsConfigured(d: Device, spec: Spec, info: LinkInfo, isRouter: bool) {
    var c := ParseCIDR(spec.allocatableCIDR);
    c.Some? && d == Configured(info, spec.port, c.value.bits, isRouter)
  }

  /**
   What a set-up that failed leaves of a link it has added: the tunnel is right, but the link may be
   down, and its address or, for a router, its route is missing.
   */
  ghost predicate Unfinished(d: Device, spec: Spec, info: LinkInfo, isRouter: bool) {
    && d.localIP == ParseIPv4(info.localIP) && d.remoteIP == ParseIPv4(info.remoteIP)
    && d.port == spec.port % 0x1_0000 && d.ttl == TTL && d.routes == {}
    && (|| d.addresses == []
        || (isRouter && d.up && d.addresses == [IPNet(ParseIPv4(info.inTunnelLocalIP), 32, 32)]))
  }

  /** The end of the set-up: the address and, for a router, the route to its peer. */
  method AddressLink(kernel: Netlink, name: string, local: Option<Quad>, remote: Option<Quad>, mask: nat,
                     isRouter: bool)
    returns (ok: bool)
    requires name in kernel.links && kernel.links[name].addresses == [] && kernel.links[name].routes == {}
    modifies kernel
    ensures kernel.faults >= old(kernel.faults) && (ok <==> kernel.faults == old(kernel.faults))
    ensures OthersSame(old(kernel.links), kernel.links, name) && name in kernel.links
    ensures ok ==> kernel.links[name] == old(kernel.links)[name].(
      addresses := [IPNet(local, mask, 32)],
      routes := if isRouter then {Route(true, IPNet(remote, mask, 32), None, local)} else {})
    ensures !ok ==>
      || kernel.links[name] == old(kernel.links)[name]
      || (isRouter && kernel.links[name] == old(kernel.links)[name].(addresses := [IPNet(local, mask, 32)]))
  {
    ok := kernel.AddrAdd(name, IPNet(local, mask, 32));
    if !ok { return; }
    if isRouter {
      ok := kernel.RouteAdd(name, Route(true, IPNet(remote, mask, 32), None, local));
    }
  }

  /** It fails exactly if a kernel call does, the link exists, or the pool does not parse. */
  method SetupTunnelIface(kernel: Netlink, spec: Spec, name: string, info: LinkInfo, isRouter: bool) returns (ok: bool)
    modifies kernel
    ensures kernel.faults >= old(kernel.faults)
    ensures ok <==>
      kernel.faults == old(kernel.faults) && name !in old(kernel.links) && ParseCIDR(spec.allocatableCIDR).Some?
    ensures OthersSame(old(kernel.links), kernel.links, name)
    ensures name in old(kernel.links) ==> kernel.links == old(kernel.links)
    ensures ok ==> name in kernel.links && IsConfigured(kernel.links[name], spec, info, isRouter)
    ensures !ok && name !in old(kernel.links) && name in kernel.links ==>
      Unfinished(kernel.links[name], spec, info, isRouter)
  {
    hide ParseCIDR, ParseIPv4;
    var port := spec.port % 0x1_0000;
    ok := kernel.LinkAdd(name, ParseIPv4(info.localIP), ParseIPv4(info.remoteIP), port, TTL);
    if !ok { return; }
    ok := kernel.LinkByName(name);
    if !ok { return; }
    ok := kernel.LinkSetUp(name);
    if !ok { return; }
    var parsed := ParseCIDR(spec.allocatableCIDR);
    if parsed.None? {
      return false;
    }
    var mask := if isRouter then 32 else parsed.value.bits;
    ok := AddressLink(kernel, name, ParseIPv4(info.inTunnelLocalIP), ParseIPv4(info.inTunnelRemoteIP), mask, isRouter);
  }

  // ---------- target and kernel ----------

  /** Every target link carries the prefix and has not been looked at yet. */
  ghost predicate FreshTarget(target: map<string, LinkInfo>, prefix: string) {
    forall n :: n in target ==> prefix <= n && !target[n].processed
  }

  /** Among the links with the prefix there are exactly the target links. */
  ghost predicate Converged(links: map<string, Device>, prefix: string, target: map<string, LinkInfo>) {
    forall n :: prefix <= n ==> (n in links <==> n in target)
  }

  /** Links outside the prefix, and target links that were there, are as before. */
  ghost predicate Isolated(before: map<string, Device>, after: map<string, Device>, prefix: string,
                           target: map<string, LinkInfo>)
  {
    forall n :: (!(prefix <= n) || (n in before && n in target)) ==>
      (n in before <==> n in after) && (n in before ==> after[n] == before[n])
  }

  /** The target with some of its links marked as seen. */
  function Mark(target: map<string, LinkInfo>, seen: set<string>): map<string, LinkInfo> {
    map n | n in target :: target[n].(processed := target[n].processed || n in seen)
  }

  /** The kernel's links without those that the network no longer wants. */
  function Cleaned(links: map<string, Device>, prefix: string, target: map<string, LinkInfo>,
                   seen: set<string>): map<string, Device>
  {
    map n | n in links && !(prefix <= n && n !in target && n in seen) :: links[n]
  }

  /** The first loop: mark the target links that exist, delete the links that are not wanted. */
  method DeleteUnwanted(kernel: Netlink, prefix: string, target: map<string, LinkInfo>)
    returns (ok: bool, state: map<string, LinkInfo>)
    requires FreshTarget(target, prefix)
    modifies kernel
    ensures kernel.faults >= old(kernel.faults) && (ok <==> kernel.faults == old(kernel.faults))
    ensures Isolated(old(kernel.links), kernel.links, prefix, target)
    ensures kernel.links.Keys <= old(kernel.links).Keys
    ensures ok ==> state == Mark(target, old(kernel.links).Keys)
    ensures ok ==> kernel.links == Cleaned(old(kernel.links), prefix, target, old(kernel.links).Keys)
    ensures Converged(old(kernel.links), prefix, target) ==> kernel.links == old(kernel.links)
  {
    hide Mark, Cleaned, Isolated, Converged;
    ghost var before := kernel.links;
    state := target;
    CleanedFacts(before, prefix, target, {});
    MarkFacts(target, {});
    var listed, names := kernel.LinkList();
    if !listed {
      return false, state;
    }
    assert Elements(names[..0]) == {};
    for i := 0 to |names|
      invariant kernel.faults == old(kernel.faults)
      invariant state == Mark(target, Elements(names[..i]))
      invariant kernel.links == Cleaned(before, prefix, target, Elements(names[..i]))
    {
      var name := names[i];
      assert Elements(names[..i + 1]) == Elements(names[..i]) + {name};
      CleanedFacts(before, prefix, target, Elements(names[..i]));
      CleanedOneMore(before, prefix, target, Elements(names[..i]), name);
      MarkFacts(target, Elements(names[..i]));
      MarkOneMore(target, Elements(names[..i]), name);
      if prefix <= name {
        if name in state {
          state := state[name := state[name].(processed := true)];
        } else {
          assert name !in Elements(names[..i]);
          StillListed(before, prefix, target, Elements(names[..i]), name);
          var deleted := kernel.LinkDel(name);
          if !deleted {
            return false, state;
          }
        }
      }
    }
    assert names[..|names|] == names;
    CleanedFacts(before, prefix, target, Elements(names));
    return true, state;
  }

  lemma MarkFacts(target: map<string, LinkInfo>, seen: set<string>)
    ensures Mark(target, seen).Keys == target.Keys
    ensures seen == {} ==> Mark(target, seen) == target
  {
  }

  lemma CleanedFacts(links: map<string, Device>, prefix: string, target: map<string, LinkInfo>, seen: set<string>)
    ensures var after := Cleaned(links, prefix, target, seen);
      && Isolated(links, after, prefix, target) && after.Keys <= links.Keys
      && (Converged(links, prefix, target) || seen == {} ==> after == links)
  {
  }

  lemma CleanedOneMore(links: map<string, Device>, prefix: string, target: map<string, LinkInfo>, seen: set<string>,
                       name: string)
    ensures Cleaned(links, prefix, target, seen + {name})
      == if prefix <= name && name !in target then Cleaned(links, prefix, target, seen) - {name}
         else Cleaned(links, prefix, target, seen)
  {
  }

  lemma StillListed(links: map<string, Device>, prefix: string, target: map<string, LinkInfo>, seen: set<string>,
                    name: string)
    requires name in links && name !in seen
    ensures name in Cleaned(links, prefix, target, seen)
  {
  }

  lemma MarkOneMore(target: map<string, LinkInfo>, seen: set<string>, name: string)
    ensures Mark(target, seen + {name})
      == if name in target then Mark(target, seen)[name := Mark(target, seen)[name].(processed := true)]
         else Mark(target, seen)
  {
  }

  /** Target links that were missing before are set up as wanted, or not there yet. */
  ghost predicate SetUpSoFar(before: map<string, Device>, after: map<string, Device>, target: map<string, LinkInfo>,
                             todo: set<string>, spec: Spec, isRouter: bool)
  {
    forall n :: n in target && n !in before ==>
      if n in todo then n !in after else n in after && IsConfigured(after[n], spec, target[n], isRouter)
  }

  /** Apart from target links that were missing, the links are the same. */
  ghost predicate OnlyMissingAdded(before: map<string, Device>, after: map<string, Device>,
                                   target: map<string, LinkInfo>)
  {
    forall n :: n !in target || n in before ==> (n in before <==> n in after) && (n in before ==> after[n] == before[n])
  }

  /** The second loop: set up the links not marked, in any order. */
  method SetUpMissing(kernel: Netlink, spec: Spec, target: map<string, LinkInfo>, state: map<string, LinkInfo>,
                      isRouter: bool)
    returns (ok: bool)
    requires state == Mark(target, kernel.links.Keys) && forall n :: n in target ==> !target[n].processed
    modifies kernel
    ensures kernel.faults >= old(kernel.faults)
    ensures ok <==>
      && kernel.faults == old(kernel.faults)
      && (ParseCIDR(spec.allocatableCIDR).Some? || target.Keys <= old(kernel.links).Keys)
    ensures OnlyMissingAdded(old(kernel.links), kernel.links, target)
    ensures ok ==> SetUpSoFar(old(kernel.links), kernel.links, target, {}, spec, isRouter)
  {
    hide IsConfigured, ParseCIDR, OnlyMissingAdded, SetUpSoFar, OthersSame, Mark;
    ghost var before := kernel.links;
    MarkedExactly(target, before.Keys);
    NothingSetUp(before, target, spec, isRouter);
    var todo := state.Keys;
    while todo != {}
      invariant todo <= state.Keys && kernel.faults == old(kernel.faults)
      invariant ParseCIDR(spec.allocatableCIDR).Some? || target.Keys <= before.Keys + todo
      invariant OnlyMissingAdded(before, kernel.links, target)
      invariant SetUpSoFar(before, kernel.links, target, todo, spec, isRouter)
    {
      var name :| name in todo;
      ghost var sofar := kernel.links;
      if !state[name].processed {
        assert state[name] == target[name];
        StillMissing(before, sofar, target, todo, spec, isRouter, name);
        ok := SetupTunnelIface(kernel, spec, name, state[name], isRouter);
        SetUpKeepsRest(before, sofar, kernel.links, target, name);
        if !ok { return; }
      }
      SetUpOneMore(before, sofar, kernel.links, target, todo, spec, isRouter, name);
      todo := todo - {name};
    }
    assert before.Keys + {} == before.Keys;
    return true;
  }

  lemma MarkedExactly(target: map<string, LinkInfo>, seen: set<string>)
    requires forall n :: n in target ==> !target[n].processed
    ensures Mark(target, seen).Keys == target.Keys
    ensures forall n :: n in target ==>
      (Mark(target, seen)[n].processed <==> n in seen) && (n !in seen ==> Mark(target, seen)[n] == target[n])
  {
  }

  lemma NothingSetUp(before: map<string, Device>, target: map<string, LinkInfo>, spec: Spec, isRouter: bool)
    ensures SetUpSoFar(before, before, target, target.Keys, spec, isRouter) && OnlyMissingAdded(before, before, target)
  {
  }

  lemma StillMissing(before: map<string, Device>, sofar: map<string, Device>, target: map<string, LinkInfo>,
                     todo: set<string>, spec: Spec, isRouter: bool, name: string)
    requires SetUpSoFar(before, sofar, target, todo, spec, isRouter)
    requires name in target && name !in before && name in todo
    ensures name !in sofar
  {
  }

  lemma SetUpKeepsRest(before: map<string, Device>, sofar: map<string, Device>, now: map<string, Device>,
                       target: map<string, LinkInfo>, name: string)
    requires OnlyMissingAdded(before, sofar, target) && OthersSame(sofar, now, name)
    requires name in target && name !in before
    ensures OnlyMissingAdded(before, now, target)
  {
  }

  lemma SetUpOneMore(before: map<string, Device>, sofar: map<string, Device>, now: map<string, Device>,
                     target: map<string, LinkInfo>, todo: set<string>, spec: Spec, isRouter: bool, name: string)
    requires SetUpSoFar(before, sofar, target, todo, spec, isRouter) && name in target
    requires if name in before then now == sofar
      else OthersSame(sofar, now, name) && name in now && IsConfigured(now[name], spec, target[name], isRouter)
    ensures SetUpSoFar(before, now, target, todo - {name}, spec, isRouter)
  {
    hide IsConfigured;
  }

  /** Links that were there have been left alone, and the new target links are set up as wanted. */
  ghost predicate InterfacesDone(before: map<string, Device>, after: map<string, Device>, spec: Spec, prefix: string,
                                 target: map<string, LinkInfo>, isRouter: bool)
  {
    && Isolated(before, after, prefix, target) && Converged(after, prefix, target)
    && SetUpSoFar(before, after, target, {}, spec, isRouter)
  }

  /**
   The interface part of reconcileTunnelInterfaces. It never touches a link outside the prefix
   or a target link that exists, even when it fails; when it succeeds exactly the target links
   are left, the new ones set up as wanted; and a second run finds nothing to do. It fails only
   if a kernel call does, or the pool does not parse and a link is missing.
   */
  method ReconcileInterfaces(kernel: Netlink, spec: Spec, prefix: string, target: map<string, LinkInfo>, isRouter: bool)
    returns (ok: bool)
    requires FreshTarget(target, prefix)
    modifies kernel
    ensures kernel.faults >= old(kernel.faults)
    ensures ok <==>
      && kernel.faults == old(kernel.faults)
      && (ParseCIDR(spec.allocatableCIDR).Some? || target.Keys <= old(kernel.links).Keys)
    ensures Isolated(old(kernel.links), kernel.links, prefix, target)
    ensures ok ==> InterfacesDone(old(kernel.links), kernel.links, spec, prefix, target, isRouter)
    ensures Converged(old(kernel.links), prefix, target) ==> kernel.links == old(kernel.links)
  {
    hide IsConfigured, ParseCIDR;
    ghost var before := kernel.links;
    var state: map<string, LinkInfo>;
    ok, state := DeleteUnwanted(kernel, prefix, target);
    if !ok { return; }
    ghost var cleaned := kernel.links;
    SameMarks(target, before, cleaned);
    ok := SetUpMissing(kernel, spec, target, state, isRouter);
  }

  /** When the interfaces are done, a target link is as set-up makes it exactly if it is new or was so before. */
  lemma ConfiguredExactly(before: map<string, Device>, after: map<string, Device>, spec: Spec, prefix: string,
                          target: map<string, LinkInfo>, isRouter: bool, n: string)
    requires FreshTarget(target, prefix) && InterfacesDone(before, after, spec, prefix, target, isRouter) && n in target
    ensures n in after
    ensures IsConfigured(after[n], spec, target[n], isRouter)
      <==> n !in before || IsConfigured(before[n], spec, target[n], isRouter)
  {
    hide IsConfigured;
  }

  /** Before the routes are looked at, a new link of a router has the route to its peer, one of a member has none. */
  lemma NewLinkRoutes(before: map<string, Device>, after: map<string, Device>, spec: Spec, prefix: string,
                      target: map<string, LinkInfo>, isRouter: bool, n: string)
    requires InterfacesDone(before, after, spec, prefix, target, isRouter) && n in target && n !in before
    ensures n in after
    ensures forall r :: r in after[n].routes <==>
      && isRouter && r.linkScope && r.gw == None && r.src == ParseIPv4(target[n].inTunnelLocalIP)
      && r.dst == IPNet(ParseIPv4(target[n].inTunnelRemoteIP), 32, 32)
  {
    hide ParseIPv4, ParseCIDR;
    assert IsConfigured(after[n], spec, target[n], isRouter);
  }

  lemma SameMarks(target: map<string, LinkInfo>, before: map<string, Device>, cleaned: map<string, Device>)
    requires forall n :: n in target ==> (n in before <==> n in cleaned)
    ensures Mark(target, before.Keys) == Mark(target, cleaned.Keys)
  {
  }
}
