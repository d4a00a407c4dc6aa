/** What holds along every run of the cluster. */
module Runs {
  import opened Wrappers
  import opened Addresses
  import opened PickIP
  import opened Api
  import opened Allocations
  import opened Ipam
  import opened Validating
  import opened Cluster
  import opened Invariant
  import opened Steps
  import opened Preservation

  // ---------- reached states ----------

  lemma {:induction false} RunInv(states: seq<State>, events: seq<Event>, i: nat)
    requires Run(states, events) && i < |states|
    ensures Inv(states[i])
  {
    hide Inv, Apply, Enabled;
    if i == 0 {
      InitInv(states[0]);
    } else {
      RunInv(states, events, i - 1);
      assert Step(states[i - 1], events[i - 1], states[i]);
      EventKeepsInv(states[i - 1], events[i - 1]);
    }
  }

  /** The newest store of a reached state. */
  ghost function Latest(states: seq<State>, i: nat): Store
    requires i < |states|
  {
    if states[i].hist == [] then Store(map[], map[], 0) else Now(states[i])
  }

  lemma LatestIsNow(states: seq<State>, i: nat)
    requires i < |states| && Shape(states[i])
    ensures states[i].hist != [] && Latest(states, i) == Now(states[i])
  {
  }

  /** Facts about one step of a run, for the proofs below. */
  lemma RunStep(states: seq<State>, events: seq<Event>, i: nat)
    requires Run(states, events) && i < |events|
    ensures var s, e := states[i], events[i];
      && Inv(s) && Inv(states[i + 1])
      && Shape(s) && Enabled(s, e) && states[i + 1] == Apply(s, e)
      && Latest(states, i) == Now(s) && Latest(states, i + 1) == Next(s, e)
      && NetworkFates(s, e, Next(s, e)) && PodFates(s, e, Next(s, e)) && FinalizerRule(s, e, Next(s, e))
  {
    hide Enabled, Apply, NetworkFates, PodFates, FinalizerRule, HistoryInv, PodsSeen, NetworksSeen, WorkersKnow;
    RunInv(states, events, i);
    RunInv(states, events, i + 1);
    assert Step(states[i], events[i], states[i + 1]);
    ShapeOf(states[i]);
    ShapeOf(states[i + 1]);
    SpecsAreValid(states[i]);
    EventFates(states[i], events[i]);
    FinalizersKept(states[i], events[i]);
  }

  /** Histories only grow along a run. */
  lemma {:induction false} HistoryGrows(states: seq<State>, events: seq<Event>, i: nat, k: nat)
    requires Run(states, events) && i <= k < |states|
    ensures states[i].hist <= states[k].hist && states[i].hist != []
    ensures Latest(states, i) in states[k].hist
  {
    hide Enabled, Apply, NetworkFates, PodFates, FinalizerRule, HistoryInv, PodsSeen, NetworksSeen, WorkersKnow;
    RunInv(states, events, i);
    ShapeOf(states[i]);
    if i < k {
      HistoryGrows(states, events, i, k - 1);
      assert Step(states[k - 1], events[k - 1], states[k]);
      HistoryExtends(states[k - 1], events[k - 1]);
    }
  }

  lemma GoodNow(states: seq<State>, events: seq<Event>, i: nat)
    requires Run(states, events) && i < |states|
    ensures GoodStore(Latest(states, i)) && Shape(states[i])
  {
    hide HistoryInv, PodsSeen, NetworksSeen, WorkersKnow, GoodStore;
    RunInv(states, events, i);
    ShapeOf(states[i]);
    SpecsAreValid(states[i]);
  }

  // ---------- going on ----------

  lemma RunLengths(states: seq<State>, events: seq<Event>)
    requires Run(states, events)
    ensures |states| == |events| + 1
  {
  }

  ghost predicate Continues(states: seq<State>, events: seq<Event>, states': seq<State>, events': seq<Event>) {
    Run(states', events') && states <= states' && events <= events'
  }

  lemma OneMoreEvent(states: seq<State>, events: seq<Event>, e: Event)
    requires Run(states, events)
    requires Shape(states[|events|]) && Enabled(states[|events|], e)
    ensures Run(states + [Apply(states[|events|], e)], events + [e])
  {
    hide Shape, Enabled, Apply;
    var states', events' := states + [Apply(states[|events|], e)], events + [e];
    forall i | 0 <= i < |events'| ensures Step(states'[i], events'[i], states'[i + 1]) {
      if i < |events| { assert Step(states[i], events[i], states[i + 1]); }
    }
  }

  /** One more event of a run, and the store it leads to. */
  lemma NextOfRun(states: seq<State>, events: seq<Event>, e: Event)
    requires Run(states, events)
    requires Shape(states[|events|]) && Enabled(states[|events|], e)
    ensures var states' := states + [Apply(states[|events|], e)];
      && Run(states', events + [e]) && Shape(Apply(states[|events|], e))
      && Latest(states', |events| + 1) == Next(states[|events|], e)
  {
    hide Shape, Enabled, Apply, Run, GoodStore;
    OneMoreEvent(states, events, e);
    RunLengths(states, events);
    GoodNow(states + [Apply(states[|events|], e)], events + [e], |events| + 1);
    LatestIsNow(states + [Apply(states[|events|], e)], |events| + 1);
  }

  // ---------- safety of the pool ----------

  /**
   In every reached store, the allocations of every network have distinct pods, distinct
   addresses, and only addresses of the network's pool.
   */
  lemma AllocationsAreSafe(states: seq<State>, events: seq<Event>, i: nat, n: string)
    requires Run(states, events) && i < |states| && n in Latest(states, i).networks
    ensures var nw := Latest(states, i).networks[n];
      var cidr := ParseCIDR(nw.spec.allocatableCIDR);
      && cidr.Some?
      && DistinctPods(nw.status.allocations) && DistinctIPs(nw.status.allocations)
      && forall a :: a in nw.status.allocations ==> TextInNet(cidr.value, a.ip)
  {
    hide NoDangling, LivePodsHold, ParseCIDR, TextInNet;
    GoodNow(states, events, i);
    assert GoodNetwork(Latest(states, i).networks[n]);
  }

  /** The same network object in the newest stores of two reached states. */
  ghost predicate SameObject(states: seq<State>, i: nat, k: nat, n: string)
    requires i < |states| && k < |states|
  {
    && n in Latest(states, i).networks && n in Latest(states, k).networks
    && Latest(states, i).networks[n].uid == Latest(states, k).networks[n].uid
  }

  /** A network object never changes its pool or its port. */
  lemma PoolNeverChanges(states: seq<State>, events: seq<Event>, i: nat, k: nat, n: string)
    requires Run(states, events) && i <= k < |states| && SameObject(states, i, k, n)
    ensures SamePool(Latest(states, i).networks[n].spec, Latest(states, k).networks[n].spec)
  {
    hide NoDangling, LivePodsHold, GoodStore, Versions, NetworksStable, PodsStable, PodsSeen, NetworksSeen, WorkersKnow;
    RunInv(states, events, k);
    HistoryGrows(states, events, i, k);
    var at := |states[i].hist| - 1;
    assert states[k].hist[at] == Latest(states, i);
    assert SameNetwork(states[k], at, n);
  }

  lemma {:induction false} DistinctCount(l: seq<Allocation>)
    requires DistinctIPs(l)
    ensures |IPsOf(l)| == |l|
  {
    if l != [] {
      var m := |l| - 1;
      DistinctCount(l[..m]);
      assert l == l[..m] + [l[m]];
      assert IPsOf(l) == IPsOf(l[..m]) + {l[m].ip};
      assert l[m].ip !in IPsOf(l[..m]);
    }
  }

  /** A network of prefix length n never holds more than 2^(32-n) allocations. */
  lemma NeverOverfull(states: seq<State>, events: seq<Event>, i: nat, n: string)
    requires Run(states, events) && i < |states| && n in Latest(states, i).networks
    ensures var nw := Latest(states, i).networks[n];
      var cidr := ParseCIDR(nw.spec.allocatableCIDR);
      cidr.Some? && |nw.status.allocations| <= Pow2(32 - cidr.value.bits)
  {
    hide ParseCIDR, TextInNet;
    AllocationsAreSafe(states, events, i, n);
    var l := Latest(states, i).networks[n].status.allocations;
    DistinctCount(l);
    Capacity(ParseCIDR(Latest(states, i).networks[n].spec.allocatableCIDR).value, IPsOf(l));
  }

  // ---------- the three collections agree ----------

  /** No other entry of the list has the same pod. */
  ghost predicate OnlyEntry(a: Allocation, l: seq<Allocation>) {
    forall b :: b in l && b.podName == a.podName ==> b == a
  }

  lemma UniqueEntry(l: seq<Allocation>, a: Allocation)
    requires DistinctPods(l) && a in l
    ensures OnlyEntry(a, l)
  {
    forall b | b in l && b.podName == a.podName ensures b == a {
      FindUnique(l, a);
      FindUnique(l, b);
    }
  }

  /**
   In every reached store, an entry in the routers or under any optional route names an
   allocated pod, has the addresses of its one allocation, and is the only entry of its pod there.
   */
  lemma RoutersAgree(states: seq<State>, events: seq<Event>, i: nat, n: string, k: string, e: Allocation)
    requires Run(states, events) && i < |states| && n in Latest(states, i).networks
    requires var st := Latest(states, i).networks[n].status; e in st.routers || e in Under(st.optionalRouters, k)
    ensures var st := Latest(states, i).networks[n].status;
      && (exists a :: a in st.allocations && SameAddresses(e, a) && OnlyEntry(a, st.allocations))
      && (e in st.routers ==> OnlyEntry(e, st.routers))
      && (e in Under(st.optionalRouters, k) ==> OnlyEntry(e, st.optionalRouters[k]))
  {
    hide NoDangling, LivePodsHold, ParseCIDR, TextInNet;
    GoodNow(states, events, i);
    var nw := Latest(states, i).networks[n];
    assert GoodNetwork(nw);
    var st := nw.status;
    assert Backed(e, st.allocations);
    var a := Find(st.allocations, e.podName).value;
    assert OnlyEntry(a, st.allocations) by { UniqueEntry(st.allocations, a); }
    if e in st.routers { UniqueEntry(st.routers, e); }
    if e in Under(st.optionalRouters, k) { UniqueEntry(st.optionalRouters[k], e); }
  }

  // ---------- no dangling entries ----------

  /** The pod has an entry in one of the three collections. */
  ghost predicate Mentioned(st: Status, p: string) {
    IsAllocated(st, p) || IsRouter(st, p) || exists k :: IsOptionalRouter(st, k, p)
  }

  lemma MentionedIsAllocated(nw: Network, p: string)
    requires GoodNetwork(nw) && Mentioned(nw.status, p)
    ensures IsAllocated(nw.status, p)
  {
    hide ParseCIDR, TextInNet;
    if IsRouter(nw.status, p) {
      assert Backed(Find(nw.status.routers, p).value, nw.status.allocations);
    }
    forall k | IsOptionalRouter(nw.status, k, p) ensures IsAllocated(nw.status, p) {
      assert Backed(Find(nw.status.optionalRouters[k], p).value, nw.status.allocations);
    }
  }

  ghost predicate MentionedIn(c: Store, n: string, p: string) {
    n in c.networks && Mentioned(c.networks[n].status, p)
  }

  /** Whoever is mentioned in a network of a reached store is a stored pod that holds the finalizer. */
  lemma NoDanglingEntries(states: seq<State>, events: seq<Event>, i: nat, n: string, p: string)
    requires Run(states, events) && i < |states| && MentionedIn(Latest(states, i), n, p)
    ensures Holder(Latest(states, i), p)
  {
    hide GoodNetwork, Mentioned, Holder, LivePodsHold;
    GoodNow(states, events, i);
    MentionedIsAllocated(Latest(states, i).networks[n], p);
    assert AllocatedIn(Latest(states, i), n, p);
  }

  /** A finalizer is lost only to the pod's own worker, and only when no network mentions the pod. */
  lemma FinalizerDroppedLast(states: seq<State>, events: seq<Event>, i: nat, p: string)
    requires Run(states, events) && i < |events|
    requires Holder(Latest(states, i), p) && !Holder(Latest(states, i + 1), p)
    ensures events[i].Finish? && events[i].p == p
    ensures var c := Latest(states, i + 1); forall n :: !MentionedIn(c, n, p)
  {
    hide MentionedIn, Apply, Enabled, NetworkFates, PodFates, Inv, DropsFinalizer;
    RunStep(states, events, i);
    var c := Latest(states, i + 1);
    forall n ensures !MentionedIn(c, n, p) {
      if MentionedIn(c, n, p) { NoDanglingEntries(states, events, i + 1, n, p); }
    }
  }

  // ---------- one step of a run, seen from one network ----------

  /** A step edits the entries of at most one pod, and of the others it keeps even the order. */
  lemma StepTouchesOnePod(states: seq<State>, events: seq<Event>, i: nat, n: string)
    requires Run(states, events) && i < |events| && SameObject(states, i, i + 1, n)
    ensures var before, after := Latest(states, i).networks[n].status, Latest(states, i + 1).networks[n].status;
      after == before || (events[i].ProcessNetwork? && SameForOtherPods(before, after, events[i].p))
  {
    hide SameForOtherPods, Edit, Inv, Apply, Enabled, PodFates, ValidSpec, FinalizerRule;
    RunStep(states, events, i);
    var s, e := states[i], events[i];
    var c' := Latest(states, i + 1);
    assert NetworkFate(s, e, c', n);
    if e.ProcessNetwork? && e.n == n && StatusWrite(s, e.p, n, c'.networks[n]) {
      EditEffect(e.p, s.hist[s.workers[e.p].podAt].pods[e.p], n, Now(s).networks[n]);
    }
  }

  /** The pod that the worker of q has read. */
  ghost function ReadPodOf(s: State, q: string): Pod
    requires Shape(s) && q in s.workers
  {
    s.hist[s.workers[q].podAt].pods[q]
  }

  /** The entry is what the pod has to get anew in this network: its own address, and the right overlay address. */
  ghost predicate RightNewEntry(nw: Network, n: string, q: string, pod: Pod, a: Allocation) {
    && !nw.deleting && Asks(pod, n) && pod.podIP != ""
    && a == Allocation(q, pod.podIP, a.ip, a.extraNetworks)
    && InOrder(a.extraNetworks, pod.annotations.extraRoutes, n)
    && exists r :: FirstRequest(pod.annotations.requests, n, r) && RightAddress(nw, r, Ok(a.ip))
  }

  lemma EditGrants(q: string, pod: Pod, n: string, nw: Network)
    requires Edit(q, pod, n, nw).Ok? && !IsAllocated(nw.status, q) && IsAllocated(Edit(q, pod, n, nw).value, q)
    ensures RightNewEntry(nw, n, q, pod, Find(Edit(q, pod, n, nw).value.allocations, q).value)
  {
    hide Allocate, Deallocate, Find, FirstRequest, RightAddress, Wanted, WantedRouter, InOrder, ItemsFor;
    WantedIsAsked(pod, n);
    ItemsForExactly(pod.annotations.extraRoutes, n);
    if n in Wanted(pod) {
      AllocateExactly(n, nw, q, pod, n in WantedRouter(pod),
                      ItemsFor(pod.annotations.extraRoutes, n), ItemsFor(pod.annotations.extraRouters, n));
    } else {
      DeallocateEffect(nw.status, q);
    }
  }

  /** A pod gets into a network only by its own worker, and then with the entry that is right for it. */
  lemma NewAllocation(states: seq<State>, events: seq<Event>, i: nat, n: string, q: string)
    requires Run(states, events) && i < |events|
    requires !AllocatedIn(Latest(states, i), n, q) && AllocatedIn(Latest(states, i + 1), n, q)
    ensures SameObject(states, i, i + 1, n)
    ensures events[i].ProcessNetwork? && events[i].p == q && events[i].n == n
    ensures Shape(states[i]) && q in states[i].workers
    ensures RightNewEntry(Latest(states, i).networks[n], n, q, ReadPodOf(states[i], q),
                          Find(Latest(states, i + 1).networks[n].status.allocations, q).value)
  {
    hide Edit, Inv, Apply, Enabled, PodFates, ValidSpec, FinalizerRule, Find, RightNewEntry, NetworkSince, SameNetwork;
    RunStep(states, events, i);
    var s, e, c' := states[i], events[i], Latest(states, i + 1);
    WhoIsAllocated(s, e, c', n, q);
    assert NetworkFate(s, e, c', n);
    EditGrants(q, ReadPodOf(s, q), n, Now(s).networks[n]);
  }

  lemma EditIsSticky(p: string, pod: Pod, n: string, nw: Network, q: string)
    requires Edit(p, pod, n, nw).Ok?
    requires var st := Edit(p, pod, n, nw).value; IsAllocated(nw.status, q) && IsAllocated(st, q)
    ensures SameAddresses(Find(nw.status.allocations, q).value, Find(Edit(p, pod, n, nw).value.allocations, q).value)
  {
    hide SameForOtherPods, Find, NewIP;
    EditEffect(p, pod, n, nw);
    if q != p {
      OthersUntouched(nw.status, Edit(p, pod, n, nw).value, p, q);
    } else if n in Wanted(pod) {
      GrantFinds(n, nw, p, pod, ItemsFor(pod.annotations.extraRoutes, n));
    }
  }

  /** The pod is allocated in the network in both stores, with the same pod address and overlay address. */
  ghost predicate SameAllocation(c: Store, c': Store, n: string, q: string) {
    && AllocatedIn(c, n, q) && AllocatedIn(c', n, q)
    && SameAddresses(Find(c.networks[n].status.allocations, q).value, Find(c'.networks[n].status.allocations, q).value)
  }

  lemma StepIsSticky(states: seq<State>, events: seq<Event>, i: nat, n: string, q: string)
    requires Run(states, events) && i < |events| && SameObject(states, i, i + 1, n)
    requires AllocatedIn(Latest(states, i), n, q) && AllocatedIn(Latest(states, i + 1), n, q)
    ensures SameAllocation(Latest(states, i), Latest(states, i + 1), n, q)
  {
    hide SameForOtherPods, Edit, Inv, Apply, Enabled, PodFates, ValidSpec, FinalizerRule, Find;
    RunStep(states, events, i);
    var s, e := states[i], events[i];
    var c' := Latest(states, i + 1);
    assert NetworkFate(s, e, c', n);
    if e.ProcessNetwork? && e.n == n && StatusWrite(s, e.p, n, c'.networks[n]) {
      EditIsSticky(e.p, s.hist[s.workers[e.p].podAt].pods[e.p], n, Now(s).networks[n], q);
    }
  }

  /** As long as a pod stays allocated in a network, its addresses there do not change. */
  lemma {:induction false} AddressesAreSticky(states: seq<State>, events: seq<Event>, i: nat, k: nat, n: string,
                                              q: string)
    requires Run(states, events) && i <= k < |states|
    requires forall j :: i <= j <= k ==> SameObject(states, i, j, n) && AllocatedIn(Latest(states, j), n, q)
    ensures SameAllocation(Latest(states, i), Latest(states, k), n, q)
  {
    hide Run, Find;
    if i < k {
      AddressesAreSticky(states, events, i, k - 1, n, q);
      assert SameObject(states, i, k - 1, n) && AllocatedIn(Latest(states, k - 1), n, q);
      assert SameObject(states, i, k, n) && AllocatedIn(Latest(states, k), n, q);
      RunLengths(states, events);
      StepIsSticky(states, events, k - 1, n, q);
    }
  }

  // ---------- deletion ----------

  /** The network is being deleted and still protected by its finalizer. */
  ghost predicate ProtectedDeletion(c: Store, n: string) {
    n in c.networks && c.networks[n].deleting && NETWORK_FINALIZER in c.networks[n].finalizers
  }

  /** Between the two stores the deletion has only gone forward: still protected or already empty, and no pod added. */
  ghost predicate Draining(before: Network, after: Network) {
    && after.deleting
    && (NETWORK_FINALIZER in after.finalizers || after.status.allocations == [])
    && forall p :: IsAllocated(after.status, p) ==> IsAllocated(before.status, p)
  }

  lemma EditOfDeletingDrains(p: string, pod: Pod, n: string, nw: Network, q: string)
    requires nw.deleting && Edit(p, pod, n, nw).Ok? && IsAllocated(Edit(p, pod, n, nw).value, q)
    ensures IsAllocated(nw.status, q)
  {
    hide SameForOtherPods, Find, NewIP;
    EditEffect(p, pod, n, nw);
    if q != p { OthersUntouched(nw.status, Edit(p, pod, n, nw).value, p, q); }
  }

  lemma EmptyHoldsNobody(st: Status)
    ensures st.allocations == [] <==> forall q :: !IsAllocated(st, q)
  {
    if st.allocations != [] { assert IsAllocated(st, st.allocations[0].podName); }
  }

  lemma StepDrains(states: seq<State>, events: seq<Event>, i: nat, n: string)
    requires Run(states, events) && i < |events| && SameObject(states, i, i + 1, n)
    requires var nw := Latest(states, i).networks[n];
      nw.deleting && (NETWORK_FINALIZER in nw.finalizers || nw.status.allocations == [])
    ensures Draining(Latest(states, i).networks[n], Latest(states, i + 1).networks[n])
  {
    hide SameForOtherPods, Edit, Inv, Apply, Enabled, PodFates, ValidSpec, FinalizerRule, Find;
    RunStep(states, events, i);
    var s, e := states[i], events[i];
    var c' := Latest(states, i + 1);
    var before, after := Now(s).networks[n], c'.networks[n];
    assert NetworkFate(s, e, c', n);
    if e.ProcessNetwork? && e.n == n && StatusWrite(s, e.p, n, after) {
      forall q | IsAllocated(after.status, q) ensures IsAllocated(before.status, q) {
        EditOfDeletingDrains(e.p, s.hist[s.workers[e.p].podAt].pods[e.p], n, before, q);
      }
      EmptyHoldsNobody(before.status);
      EmptyHoldsNobody(after.status);
    }
  }

  /** A network object that is gone does not come back. */
  lemma GoneForGood(states: seq<State>, events: seq<Event>, i: nat, k: nat, n: string)
    requires Run(states, events) && i <= k < |events| && SameObject(states, i, k + 1, n)
    ensures SameObject(states, i, k, n)
  {
    hide Inv, Apply, Enabled, PodFates, FinalizerRule, Edit, ValidSpec;
    RunStep(states, events, k);
    HistoryGrows(states, events, i, k);
    UidBelow(states, events, k, Latest(states, i));
    FateUid(states[k], events[k], Latest(states, k + 1), n);
  }

  lemma UidBelow(states: seq<State>, events: seq<Event>, k: nat, c: Store)
    requires Run(states, events) && k < |states| && c in states[k].hist
    ensures Below(c, Latest(states, k).next)
  {
    hide GoodStore, NetworksStable, PodsStable, PoolsFixed, PodsSeen, NetworksSeen, WorkersKnow, Below;
    RunInv(states, events, k);
    var i :| 0 <= i < |states[k].hist| && states[k].hist[i] == c;
  }

  /** The step at which the network object of place i disappears, from a store where it is empty. */
  ghost predicate VanishesEmptyAt(states: seq<State>, i: nat, j: nat, n: string)
    requires i < |states| && j + 1 < |states|
  {
    && SameObject(states, i, j, n) && !SameObject(states, i, j + 1, n)
    && Latest(states, j).networks[n].status.allocations == []
  }

  lemma StepVanishesEmpty(states: seq<State>, events: seq<Event>, i: nat, j: nat, n: string)
    requires Run(states, events) && i <= j < |events| && SameObject(states, i, j, n) && !SameObject(states, i, j + 1, n)
    requires Draining(Latest(states, i).networks[n], Latest(states, j).networks[n])
    ensures VanishesEmptyAt(states, i, j, n)
  {
    hide Inv, Apply, Enabled, PodFates, FinalizerRule, Edit, ValidSpec, IsAllocated;
    RunStep(states, events, j);
    var c' := Latest(states, j + 1);
    if n in c'.networks {
      FateUid(states[j], events[j], c', n);
    }
  }

  /**
   Once a protected network is being deleted, its allocated pods only become fewer, and it
   disappears only from a store in which it has no allocations.
   */
  lemma {:induction false} DeletionIsSafe(states: seq<State>, events: seq<Event>, i: nat, k: nat, n: string)
    requires Run(states, events) && i <= k < |states| && ProtectedDeletion(Latest(states, i), n)
    ensures SameObject(states, i, k, n) ==> Draining(Latest(states, i).networks[n], Latest(states, k).networks[n])
    ensures !SameObject(states, i, k, n) ==> exists j :: i <= j < k && VanishesEmptyAt(states, i, j, n)
  {
    hide Run, IsAllocated;
    RunLengths(states, events);
    if i < k {
      DeletionIsSafe(states, events, i, k - 1, n);
      if SameObject(states, i, k, n) {
        GoneForGood(states, events, i, k - 1, n);
        StepDrains(states, events, k - 1, n);
      } else if SameObject(states, i, k - 1, n) {
        StepVanishesEmpty(states, events, i, k - 1, n);
      }
    }
  }

  // ---------- a pass of the pod reconciler ----------

  /** The network is the object that the worker saw in its list. */
  ghost predicate ListedObject(listed: map<string, Network>, c: Store, n: string) {
    n in listed && n in c.networks && listed[n].uid == c.networks[n].uid
  }

  lemma WorkerAbsent(s: State, p: string, n: string)
    requires Inv(s) && p in s.workers && s.workers[p].Listed? && n in Now(s).networks
    requires !SameNetwork(s, s.workers[p].netAt, n)
    ensures Absent(Now(s).networks[n].status, p)
  {
    hide Settled, GoodNetwork, Mentioned, LivePodsHold, NoDangling, Versions, NetworksStable, PodsStable, PoolsFixed,
      PodsSeen, NetworksSeen;
    assert WorkerKnows(s, p);
    assert !AllocatedIn(Now(s), n, p);
    SpecsAreValid(s);
    assert GoodNetwork(Now(s).networks[n]);
    NotAllocatedIsAbsent(Now(s).networks[n], p);
  }

  lemma NotAllocatedIsAbsent(nw: Network, p: string)
    requires GoodNetwork(nw) && !IsAllocated(nw.status, p)
    ensures Absent(nw.status, p) && !Mentioned(nw.status, p)
  {
    hide GoodNetwork, Find;
    if Mentioned(nw.status, p) { MentionedIsAllocated(nw, p); }
  }

  lemma FinishedFinalizer(s: State, p: string, fault: Fault)
    requires Shape(s) && Enabled(s, Finish(p, fault)) && !DropFinalizer(s, p, fault).1
    requires var pod := s.hist[s.workers[p].podAt].pods[p];
      pod.deleting && !s.workers[p].hasErrors && POD_FINALIZER in pod.finalizers
    ensures !Holder(DropFinalizer(s, p, fault).0, p)
  {
  }

  /** The store c is as the pass of worker p, at its end in state s, wanted it. */
  ghost predicate PassSucceeded(s: State, p: string, c: Store)
    requires Shape(s) && p in s.workers && s.workers[p].Listed?
  {
    var pod := s.hist[s.workers[p].podAt].pods[p];
    var listed := s.hist[s.workers[p].netAt].networks;
    && (forall n :: Asks(pod, n) ==> n in listed)
    && (forall n :: n in c.networks ==>
          if ListedObject(listed, c, n) then Settled(c.networks[n].status, p, pod, n)
          else Absent(c.networks[n].status, p))
    && (pod.deleting ==> forall n :: !MentionedIn(c, n, p))
    && (pod.deleting && POD_FINALIZER in pod.finalizers ==> !Holder(c, p))
  }

  /**
   When Reconcile returns without asking to be queued again, every network the pod wants was
   in the list; in each listed network that still exists the pod is exactly what its
   annotations ask for; in every other network it is absent. A deleting pod is then in no
   network and has lost the finalizer.
   */
  lemma ReconcileOutcome(states: seq<State>, events: seq<Event>, i: nat)
    requires Run(states, events) && i < |events| && events[i].Finish?
    requires Shape(states[i]) && Enabled(states[i], events[i]) && !Requeues(states[i], events[i].p, events[i].fault)
    ensures PassSucceeded(states[i], events[i].p, Latest(states, i + 1))
  {
    hide GoodStore, Versions, NetworksStable, PodsStable, PoolsFixed, PodsSeen, NetworksSeen, GoodNetwork,
      NetworkFates, PodFates, FinalizerRule, Settled, Absent, Mentioned, Holder;
    var s, p := states[i], events[i].p;
    RunStep(states, events, i);
    var w := s.workers[p];
    var pod := s.hist[w.podAt].pods[p];
    var listed := s.hist[w.netAt].networks;
    var c := Latest(states, i + 1);
    FinishKeepsNetworks(s, p, events[i].fault);
    assert WorkerKnows(s, p);
    forall n | n in c.networks
      ensures if ListedObject(listed, c, n) then Settled(c.networks[n].status, p, pod, n)
        else Absent(c.networks[n].status, p)
    {
      if ListedObject(listed, c, n) {
        assert SameNetwork(s, w.netAt, n);
      } else {
        WorkerAbsent(s, p, n);
      }
    }
    if pod.deleting {
      forall n ensures !MentionedIn(c, n, p) {
        if n in c.networks { SettledDeleting(c.networks[n].status, p, pod, n); }
      }
      if POD_FINALIZER in pod.finalizers { FinishedFinalizer(s, p, events[i].fault); }
    }
  }

  lemma SettledDeleting(st: Status, p: string, pod: Pod, n: string)
    requires pod.deleting && (Settled(st, p, pod, n) || Absent(st, p))
    ensures !Mentioned(st, p)
  {
  }

  lemma FinishKeepsNetworks(s: State, p: string, fault: Fault)
    requires Inv(s) && Enabled(s, Finish(p, fault))
    ensures Next(s, Finish(p, fault)).networks == Now(s).networks
    ensures Next(s, Finish(p, fault)) == DropFinalizer(s, p, fault).0
  {
    hide GoodStore, Versions, NetworksStable, PodsStable, PoolsFixed, PodsSeen, NetworksSeen, WorkersKnow;
    ShapeOf(s);
    FinishFate(s, p, fault);
  }
}
