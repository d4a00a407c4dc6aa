/** The inductive invariant of the cluster. */
module Invariant {
  import opened Addresses
  import opened Api
  import opened Allocations
  import opened Ipam
  import opened Validating
  import opened Cluster

  // ---------- every store ----------

  /** A valid spec, and a status that satisfies the IPAM invariant for its pool. */
  ghost predicate GoodNetwork(nw: Network) {
    ValidSpec(nw.spec) && Sound(nw.status, ParseCIDR(nw.spec.allocatableCIDR).value)
  }

  /** The pod exists and holds the IPAM finalizer. */
  ghost predicate Holder(c: Store, p: string) {
    p in c.pods && POD_FINALIZER in c.pods[p].finalizers
  }

  ghost predicate Live(pod: Pod) {
    pod.Injected() && !pod.deleting
  }

  ghost predicate AllocatedIn(c: Store, n: string, p: string) {
    n in c.networks && IsAllocated(c.networks[n].status, p)
  }

  ghost predicate NetworksGood(c: Store) {
    forall n :: n in c.networks ==> GoodNetwork(c.networks[n])
  }

  ghost predicate NoDangling(c: Store) {
    forall n, p :: AllocatedIn(c, n, p) ==> Holder(c, p)
  }

  ghost predicate LivePodsHold(c: Store) {
    forall p :: p in c.pods && Live(c.pods[p]) ==> Holder(c, p)
  }

  ghost predicate GoodStore(c: Store) {
    NetworksGood(c) && NoDangling(c) && LivePodsHold(c)
  }

  // ---------- versions ----------

  ghost predicate Below(c: Store, bound: nat) {
    && (forall n :: n in c.networks ==> c.networks[n].version < bound && c.networks[n].uid < bound)
    && (forall p :: p in c.pods ==> c.pods[p].version < bound)
  }

  ghost predicate Versions(s: State)
    requires Shape(s)
  {
    forall i :: 0 <= i < |s.hist| ==> Below(s.hist[i], Now(s).next)
  }

  /** The network has been as it is now ever since place i of the history. */
  ghost predicate NetworkSince(s: State, i: nat, n: string)
    requires Shape(s) && n in Now(s).networks
  {
    forall k :: i <= k < |s.hist| ==> n in s.hist[k].networks && s.hist[k].networks[n] == Now(s).networks[n]
  }

  ghost predicate PodSince(s: State, i: nat, p: string)
    requires Shape(s) && p in Now(s).pods
  {
    forall k :: i <= k < |s.hist| ==> p in s.hist[k].pods && s.hist[k].pods[p] == Now(s).pods[p]
  }

  ghost predicate SameNetworkVersion(s: State, i: nat, n: string)
    requires Shape(s) && i < |s.hist|
  {
    n in s.hist[i].networks && n in Now(s).networks && s.hist[i].networks[n].version == Now(s).networks[n].version
  }

  ghost predicate SamePodVersion(s: State, i: nat, p: string)
    requires Shape(s) && i < |s.hist|
  {
    p in s.hist[i].pods && p in Now(s).pods && s.hist[i].pods[p].version == Now(s).pods[p].version
  }

  /** Equal versions mean that nothing was written in between. */
  ghost predicate NetworksStable(s: State)
    requires Shape(s)
  {
    forall i, n :: 0 <= i < |s.hist| && SameNetworkVersion(s, i, n) ==> NetworkSince(s, i, n)
  }

  ghost predicate PodsStable(s: State)
    requires Shape(s)
  {
    forall i, p :: 0 <= i < |s.hist| && SamePodVersion(s, i, p) ==> PodSince(s, i, p)
  }

  /** The same network object, at a place of the history and now. */
  ghost predicate SameNetwork(s: State, i: nat, n: string)
    requires Shape(s) && i < |s.hist|
  {
    n in s.hist[i].networks && n in Now(s).networks && s.hist[i].networks[n].uid == Now(s).networks[n].uid
  }

  /** A network keeps its pool and port for as long as it exists. */
  ghost predicate PoolsFixed(s: State)
    requires Shape(s)
  {
    forall i, n :: 0 <= i < |s.hist| && SameNetwork(s, i, n)
      ==> SamePool(s.hist[i].networks[n].spec, Now(s).networks[n].spec)
  }

  // ---------- the caches and the workers ----------

  /** A pod that any later read can still show alive holds the finalizer now. */
  ghost predicate PodsSeen(s: State)
    requires Shape(s)
  {
    forall j, p :: s.podPos <= j < |s.hist| && p in s.hist[j].pods && Live(s.hist[j].pods[p]) ==> Holder(Now(s), p)
  }

  /** A network that holds an allocation is in every list still to be read. */
  ghost predicate NetworksSeen(s: State)
    requires Shape(s)
  {
    forall j, n, p :: s.netPos <= j < |s.hist| && AllocatedIn(Now(s), n, p) ==> SameNetwork(s, j, n)
  }

  /** The status is what the pod's annotations ask for. */
  ghost predicate Settled(st: Status, p: string, pod: Pod, n: string) {
    if Asks(pod, n) then
      && IsAllocated(st, p)
      && InOrder(Find(st.allocations, p).value.extraNetworks, pod.annotations.extraRoutes, n)
      && (IsRouter(st, p) <==> n in pod.annotations.routerFor)
      && forall k :: IsOptionalRouter(st, k, p) <==> Scoped(n, k) in pod.annotations.extraRouters
    else Absent(st, p)
  }

  /** A live pod asks for the networks that its member and router annotations name. */
  ghost predicate Asks(pod: Pod, n: string) {
    !pod.deleting && (n in pod.annotations.memberOf || n in pod.annotations.routerFor)
  }

  lemma WantedIsAsked(pod: Pod, n: string)
    ensures n in Wanted(pod) <==> Asks(pod, n)
    ensures n in WantedRouter(pod) <==> !pod.deleting && n in pod.annotations.routerFor
  {
  }

  ghost predicate WorkerKnows(s: State, p: string)
    requires Shape(s) && p in s.workers
  {
    var w := s.workers[p];
    var pod := s.hist[w.podAt].pods[p];
    && (Live(pod) ==> Holder(Now(s), p))
    && (w.Listed? ==>
      && w.processed <= s.hist[w.netAt].networks.Keys
      && (forall n :: AllocatedIn(Now(s), n, p) ==> SameNetwork(s, w.netAt, n))
      && (!w.hasErrors ==>
        forall n :: SameNetwork(s, w.netAt, n) && n !in w.todo ==> Settled(Now(s).networks[n].status, p, pod, n)))
  }

  ghost predicate WorkersKnow(s: State)
    requires Shape(s)
  {
    forall p :: p in s.workers ==> WorkerKnows(s, p)
  }

  // ---------- all together ----------

  /** The part that is about the stores and their history. */
  ghost predicate HistoryInv(s: State) {
    && Shape(s)
    && (forall i :: 0 <= i < |s.hist| ==> GoodStore(s.hist[i]))
    && Versions(s) && NetworksStable(s) && PodsStable(s) && PoolsFixed(s)
  }

  ghost predicate Inv(s: State) {
    HistoryInv(s) && PodsSeen(s) && NetworksSeen(s) && WorkersKnow(s)
  }

  lemma InitInv(s: State)
    requires Init(s)
    ensures Inv(s)
  {
  }
}
