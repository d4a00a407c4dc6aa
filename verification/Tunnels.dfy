/** The tunnels a pod's sidecar wants, computed from the status of one network. */
module Tunnels {
  import opened Api
  import opened Allocations
  import opened Ipam
  import opened Names
  import opened Cluster
  import opened Invariant
  import opened Runs

  datatype LinkInfo = LinkInfo(
    remoteIP: string,
    localIP: string,
    inTunnelLocalIP: string,
    inTunnelRemoteIP: string,
    processed: bool)

  /** The tunnel between the local pod and another one. */
  function LinkBetween(local: Allocation, remote: Allocation): LinkInfo {
    LinkInfo(remote.podIP, local.podIP, local.ip, remote.ip, false)
  }

  /** One link for every entry, under its tunnel name; a later entry of the same name wins. */
  function LinksTo(items: seq<Allocation>, local: Allocation, id: int): map<string, LinkInfo> {
    if items == [] then map[]
    else
      var n := |items| - 1;
      LinksTo(items[..n], local, id)[TunnelName(id, items[n].podName) := LinkBetween(local, items[n])]
  }

  /** A router is linked to all other members, a member to all routers. */
  function TargetLinks(st: Status, me: string, id: int): map<string, LinkInfo> {
    var member := Find(st.allocations, me);
    var router := Find(st.routers, me);
    if router.Some? then LinksTo(Without(st.allocations, me), router.value, id)
    else if member.Some? then LinksTo(st.routers, member.value, id)
    else map[]
  }

  /** No other allocated pod has the hash of this one. */
  ghost predicate HashIsOwn(st: Status, p: string) {
    forall a :: a in st.allocations && Fnv(a.podName) == Fnv(p) ==> a.podName == p
  }

  lemma {:induction false} LinksToExact(items: seq<Allocation>, local: Allocation, id: int, q: string)
    requires DistinctPods(items)
    requires forall a :: a in items && Fnv(a.podName) == Fnv(q) ==> a.podName == q
    ensures TunnelName(id, q) in LinksTo(items, local, id) <==> Find(items, q).Some?
    ensures Find(items, q).Some? ==>
      LinksTo(items, local, id)[TunnelName(id, q)] == LinkBetween(local, Find(items, q).value)
  {
    hide TunnelName, Fnv;
    if items != [] {
      var n := |items| - 1;
      assert items == items[..n] + [items[n]];
      LinksToExact(items[..n], local, id, q);
      FindAppend(items[..n], items[n], q);
      TunnelNamesCoincide(id, items[n].podName, id, q);
    }
  }

  /** The three lists of a status fit together. */
  ghost predicate Consistent(st: Status) {
    DistinctPods(st.allocations) && RouterList(st.routers, st.allocations)
  }

  /** What one side wants: a link to q exactly when both are members and one of them is a router. */
  lemma LinkedExactly(st: Status, p: string, q: string, id: int)
    requires Consistent(st) && p != q && HashIsOwn(st, q)
    ensures TunnelName(id, q) in TargetLinks(st, p, id)
      <==> IsAllocated(st, p) && IsAllocated(st, q) && (IsRouter(st, p) || IsRouter(st, q))
    ensures TunnelName(id, q) in TargetLinks(st, p, id) ==>
      TargetLinks(st, p, id)[TunnelName(id, q)]
      == LinkBetween(Find(st.allocations, p).value, Find(st.allocations, q).value)
  {
    hide TunnelName, Fnv;
    var member, router := Find(st.allocations, p), Find(st.routers, p);
    WithoutMembers(st.allocations, p);
    DistinctWithout(st.allocations, p);
    FindWithout(st.allocations, p, q);
    forall r | r in st.routers
      ensures Backed(r, st.allocations) && r.podName == Find(st.allocations, r.podName).value.podName
    {
    }
    if router.Some? {
      LinksToExact(Without(st.allocations, p), router.value, id, q);
    } else if member.Some? {
      forall a | a in st.routers && Fnv(a.podName) == Fnv(q) ensures a.podName == q {
        assert Find(st.allocations, a.podName).value in st.allocations;
      }
      LinksToExact(st.routers, member.value, id, q);
    }
  }

  /** The same tunnel seen from its other end. */
  function Swap(l: LinkInfo): LinkInfo {
    LinkInfo(l.localIP, l.remoteIP, l.inTunnelRemoteIP, l.inTunnelLocalIP, l.processed)
  }

  /**
   Two sidecars that read the same status agree on their tunnel: both want it or neither does,
   whatever ids they gave the network, and their ends mirror each other inside and outside.
   */
  lemma TunnelsMirror(st: Status, p: string, q: string, i: int, j: int)
    requires Consistent(st) && p != q && HashIsOwn(st, p) && HashIsOwn(st, q)
    ensures TunnelName(i, q) in TargetLinks(st, p, i) <==> TunnelName(j, p) in TargetLinks(st, q, j)
    ensures TunnelName(i, q) in TargetLinks(st, p, i)
      <==> IsAllocated(st, p) && IsAllocated(st, q) && (IsRouter(st, p) || IsRouter(st, q))
    ensures TunnelName(i, q) in TargetLinks(st, p, i) ==>
      TargetLinks(st, q, j)[TunnelName(j, p)] == Swap(TargetLinks(st, p, i)[TunnelName(i, q)])
  {
    hide TunnelName, Fnv, TargetLinks, IsAllocated, IsRouter, Consistent;
    LinkedExactly(st, p, q, i);
    LinkedExactly(st, q, p, j);
  }

  lemma ReachedConsistent(states: seq<State>, events: seq<Event>, k: nat, n: string)
    requires Run(states, events) && k < |states| && n in Latest(states, k).networks
    ensures Consistent(Latest(states, k).networks[n].status)
  {
    hide Run, NoDangling, LivePodsHold;
    GoodNow(states, events, k);
    assert GoodNetwork(Latest(states, k).networks[n]);
  }

  /** In every store of a run the statuses are such that tunnels mirror. */
  lemma ReachedTunnelsMirror(states: seq<State>, events: seq<Event>, k: nat, n: string, p: string, q: string,
                             i: int, j: int)
    requires Run(states, events) && k < |states| && n in Latest(states, k).networks
    requires var st := Latest(states, k).networks[n].status; p != q && HashIsOwn(st, p) && HashIsOwn(st, q)
    ensures var st := Latest(states, k).networks[n].status;
      && (TunnelName(i, q) in TargetLinks(st, p, i) <==> TunnelName(j, p) in TargetLinks(st, q, j))
      && (TunnelName(i, q) in TargetLinks(st, p, i) ==>
            TargetLinks(st, q, j)[TunnelName(j, p)] == Swap(TargetLinks(st, p, i)[TunnelName(i, q)]))
  {
    hide TunnelName, Fnv, TargetLinks, HashIsOwn, Run, Consistent;
    ReachedConsistent(states, events, k, n);
    TunnelsMirror(Latest(states, k).networks[n].status, p, q, i, j);
  }

  /** Every target link carries the prefix of its network. */
  lemma {:induction false} LinksToPrefixed(items: seq<Allocation>, local: Allocation, id: int)
    ensures forall name :: name in LinksTo(items, local, id) ==> Prefix(id) <= name
  {
    hide Prefix, Encode58, Fnv;
    if items != [] { LinksToPrefixed(items[..|items| - 1], local, id); }
  }

  lemma {:induction false} LinksToKeys(items: seq<Allocation>, local: Allocation, id: int, name: string)
    ensures name in LinksTo(items, local, id) <==> exists a :: a in items && name == TunnelName(id, a.podName)
  {
    hide TunnelName;
    if items != [] {
      var n := |items| - 1;
      assert items == items[..n] + [items[n]];
      LinksToKeys(items[..n], local, id, name);
    }
  }

  /** The target links are the tunnels to all other members for a router, and to all routers for a member. */
  lemma TargetsExactly(st: Status, p: string, id: int, name: string)
    requires Consistent(st)
    ensures name in TargetLinks(st, p, id) <==>
      exists q :: q != p && name == TunnelName(id, q)
        && IsAllocated(st, p) && IsAllocated(st, q) && (IsRouter(st, p) || IsRouter(st, q))
  {
    hide TunnelName;
    var member, router := Find(st.allocations, p), Find(st.routers, p);
    WithoutMembers(st.allocations, p);
    if router.Some? {
      assert Backed(router.value, st.allocations);
      LinksToKeys(Without(st.allocations, p), router.value, id, name);
      if name in TargetLinks(st, p, id) {
        var a :| a in Without(st.allocations, p) && name == TunnelName(id, a.podName);
        assert IsAllocated(st, a.podName);
      }
    } else if member.Some? {
      LinksToKeys(st.routers, member.value, id, name);
      if name in TargetLinks(st, p, id) {
        var a :| a in st.routers && name == TunnelName(id, a.podName);
        assert Backed(a, st.allocations) && IsRouter(st, a.podName);
      }
    }
  }

  lemma TargetsPrefixed(st: Status, me: string, id: int)
    ensures forall name :: name in TargetLinks(st, me, id) ==> Prefix(id) <= name
  {
    hide Prefix, LinksTo;
    var member, router := Find(st.allocations, me), Find(st.routers, me);
    if router.Some? {
      LinksToPrefixed(Without(st.allocations, me), router.value, id);
    } else if member.Some? {
      LinksToPrefixed(st.routers, member.value, id);
    }
  }
}
