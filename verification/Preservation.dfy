/** Every event keeps the invariant of the cluster. */
module Preservation {
  import opened Addresses
  import opened Api
  import opened Allocations
  import opened Ipam
  import opened Validating
  import opened Cluster
  import opened Invariant
  import opened Steps

  /** s' has the history of s and one more store, which the event produced. */
  ghost predicate Extends(s: State, e: Event, s': State, c': Store) {
    && Shape(s) && Shape(s') && s'.hist == s.hist + [c']
    && NetworkFates(s, e, c') && PodFates(s, e, c')
  }

  // ---------- versions and pools ----------

  lemma VersionsKept(s: State, e: Event, s': State, c': Store)
    requires Extends(s, e, s', c') && Versions(s)
    ensures Versions(s')
  {
    hide MainWrite, FreshNetwork, StatusWrite, MayVanish;
    var c := Now(s);
    assert Below(c, c.next);
    forall n | n in c'.networks ensures c'.networks[n].version < c'.next && c'.networks[n].uid < c'.next {
      assert NetworkFate(s, e, c', n);
      FateUid(s, e, c', n);
    }
    forall p | p in c'.pods ensures c'.pods[p].version < c'.next { assert PodFate(c, e, c', p); }
    forall i | 0 <= i < |s'.hist| ensures Below(s'.hist[i], c'.next) {
      if i < |s.hist| { assert Below(s.hist[i], c.next); }
    }
  }

  /** A rewritten network keeps its uid; a new one gets a number never used before. */
  lemma FateUid(s: State, e: Event, c': Store, n: string)
    requires Shape(s) && n in c'.networks && NetworkFate(s, e, c', n)
    ensures (n in Now(s).networks && c'.networks[n].uid == Now(s).networks[n].uid)
      || (c'.networks[n].uid == Now(s).next < c'.next && FreshNetwork(Now(s), n, c'.networks[n]))
  {
    hide Edit, ValidSpec;
  }

  lemma NetworksStableKept(s: State, e: Event, s': State, c': Store)
    requires Extends(s, e, s', c') && Versions(s) && NetworksStable(s)
    ensures NetworksStable(s')
  {
    hide MainWrite, FreshNetwork, StatusWrite, MayVanish;
    forall i, n | 0 <= i < |s'.hist| && SameNetworkVersion(s', i, n) ensures NetworkSince(s', i, n) {
      if i < |s.hist| {
        assert NetworkFate(s, e, c', n);
        assert Below(s.hist[i], Now(s).next);
        assert SameNetworkVersion(s, i, n);
        assert NetworkSince(s, i, n);
      }
    }
  }

  lemma PodsStableKept(s: State, e: Event, s': State, c': Store)
    requires Extends(s, e, s', c') && Versions(s) && PodsStable(s)
    ensures PodsStable(s')
  {
    hide NetworkFate, MayVanish;
    forall i, p | 0 <= i < |s'.hist| && SamePodVersion(s', i, p) ensures PodSince(s', i, p) {
      if i < |s.hist| {
        assert PodFate(Now(s), e, c', p);
        assert Below(s.hist[i], Now(s).next);
        assert SamePodVersion(s, i, p);
        assert PodSince(s, i, p);
      }
    }
  }

  /** A network that is still the same object as in the past was there just before, with the same pool. */
  lemma SameBefore(s: State, e: Event, s': State, c': Store, i: nat, n: string)
    requires Extends(s, e, s', c') && Versions(s) && i < |s.hist| && SameNetwork(s', i, n)
    ensures SameNetwork(s, i, n)
    ensures SamePool(Now(s).networks[n].spec, c'.networks[n].spec)
    ensures c'.networks[n].status == Now(s).networks[n].status
      || (e.ProcessNetwork? && e.n == n && StatusWrite(s, e.p, n, c'.networks[n]))
  {
    hide StatusWrite, ValidSpec, MayVanish;
    assert NetworkFate(s, e, c', n);
    assert Below(s.hist[i], Now(s).next);
    if e.ProcessNetwork? && e.n == n && StatusWrite(s, e.p, n, c'.networks[n]) {
      StatusWriteKeepsRest(s, e.p, n, c'.networks[n]);
    }
  }

  lemma StatusWriteKeepsRest(s: State, p: string, n: string, after: Network)
    requires Shape(s) && StatusWrite(s, p, n, after)
    ensures n in Now(s).networks && after.uid == Now(s).networks[n].uid && after.spec == Now(s).networks[n].spec
  {
    hide Edit;
  }

  lemma PoolsFixedKept(s: State, e: Event, s': State, c': Store)
    requires Extends(s, e, s', c') && Versions(s) && PoolsFixed(s)
    ensures PoolsFixed(s')
  {
    hide NetworkFate, PodFate, StatusWrite, Versions, MayVanish;
    forall i, n | 0 <= i < |s'.hist| && SameNetwork(s', i, n)
      ensures SamePool(s'.hist[i].networks[n].spec, Now(s').networks[n].spec)
    {
      if i < |s.hist| { SameBefore(s, e, s', c', i, n); }
    }
  }

  // ---------- the IPAM invariant of the new store ----------

  lemma EditKeepsSound(p: string, pod: Pod, n: string, nw: Network)
    requires GoodNetwork(nw) && Edit(p, pod, n, nw).Ok?
    ensures Sound(Edit(p, pod, n, nw).value, ParseCIDR(nw.spec.allocatableCIDR).value)
  {
    hide Sound, ParseCIDR, Allocate, Deallocate;
    var c := ParseCIDR(nw.spec.allocatableCIDR).value;
    if n in Wanted(pod) {
      AllocateKeepsSound(n, nw, p, pod, n in WantedRouter(pod),
                         ItemsFor(pod.annotations.extraRoutes, n), ItemsFor(pod.annotations.extraRouters, n), c);
    } else {
      DeallocateKeepsSound(nw.status, p, c);
    }
  }

  /** An edit settles its own pod and leaves the others alone. */
  lemma EditEffect(p: string, pod: Pod, n: string, nw: Network)
    requires Edit(p, pod, n, nw).Ok?
    ensures Settled(Edit(p, pod, n, nw).value, p, pod, n)
    ensures SameForOtherPods(nw.status, Edit(p, pod, n, nw).value, p)
  {
    hide Allocate, Deallocate, SameForOtherPods, Absent, IsAllocated, IsRouter, IsOptionalRouter, Wanted, WantedRouter,
      ItemsFor, InOrder, Find;
    WantedIsAsked(pod, n);
    ItemsForExactly(pod.annotations.extraRoutes, n);
    ItemsForExactly(pod.annotations.extraRouters, n);
    if n in Wanted(pod) {
      AllocateExactly(n, nw, p, pod, n in WantedRouter(pod),
                      ItemsFor(pod.annotations.extraRoutes, n), ItemsFor(pod.annotations.extraRouters, n));
      AllocateEffect(n, nw, p, pod, n in WantedRouter(pod),
                     ItemsFor(pod.annotations.extraRoutes, n), ItemsFor(pod.annotations.extraRouters, n));
    } else {
      DeallocateEffect(nw.status, p);
    }
  }

  lemma EmptyIsSound(c: Cidr)
    requires c.Valid()
    ensures Sound(EMPTY_STATUS, c)
  {
  }

  lemma NetworksGoodKept(s: State, e: Event, c': Store)
    requires Shape(s) && NetworkFates(s, e, c') && NetworksGood(Now(s))
    ensures NetworksGood(c')
  {
    hide Edit, Sound, ParseCIDR, MayVanish;
    forall n | n in c'.networks ensures GoodNetwork(c'.networks[n]) {
      assert NetworkFate(s, e, c', n);
      if FreshNetwork(Now(s), n, c'.networks[n]) {
        EmptyIsSound(ParseCIDR(c'.networks[n].spec.allocatableCIDR).value);
      } else if e.ProcessNetwork? && e.n == n && StatusWrite(s, e.p, n, c'.networks[n]) {
        EditKeepsSound(e.p, s.hist[s.workers[e.p].podAt].pods[e.p], n, Now(s).networks[n]);
      }
    }
  }

  // ---------- who is allocated after an event ----------

  /** An allocation in the new store was there before, or its pod's own worker has just made it. */
  lemma WhoIsAllocated(s: State, e: Event, c': Store, n: string, q: string)
    requires Shape(s) && NetworkFates(s, e, c') && AllocatedIn(c', n, q)
    ensures n in Now(s).networks && c'.networks[n].uid == Now(s).networks[n].uid
    ensures AllocatedIn(Now(s), n, q)
      || (&& e.ProcessNetwork? && e.p == q && e.n == n && q in s.workers && s.workers[q].Listed?
          && NetworkSince(s, s.workers[q].netAt, n) && n in Wanted(s.hist[s.workers[q].podAt].pods[q]))
  {
    hide Edit, SameForOtherPods, ValidSpec, MayVanish;
    assert NetworkFate(s, e, c', n);
    if e.ProcessNetwork? && e.n == n && StatusWrite(s, e.p, n, c'.networks[n]) {
      var pod := s.hist[s.workers[e.p].podAt].pods[e.p];
      EditEffect(e.p, pod, n, Now(s).networks[n]);
      if q != e.p { OthersUntouched(Now(s).networks[n].status, c'.networks[n].status, e.p, q); }
    }
  }

  /** Only a worker that found its pod deleting and settled drops a finalizer, so the pod is allocated nowhere. */
  lemma DroppedIsNowhere(s: State, p: string, n: string)
    requires Shape(s) && WorkersKnow(s) && DropsFinalizer(s, p)
    ensures !AllocatedIn(Now(s), n, p)
  {
    var w := s.workers[p];
    assert WorkerKnows(s, p);
    assert s.hist[w.podAt].pods[p] == Now(s).pods[p];
    if SameNetwork(s, w.netAt, n) {
      assert Settled(Now(s).networks[n].status, p, s.hist[w.podAt].pods[p], n);
    }
  }

  // ---------- finalizers ----------

  /** What Finish does to a finalizer, and only Finish. */
  ghost predicate FinalizerRule(s: State, e: Event, c': Store)
    requires Shape(s)
  {
    forall q :: Holder(Now(s), q) && !Holder(c', q) ==> e.Finish? && e.p == q && DropsFinalizer(s, q)
  }

  lemma FinalizersKept(s: State, e: Event)
    requires Shape(s) && NetworksStable(s) && PodsStable(s) && SpecsValid(Now(s)) && Enabled(s, e)
    ensures FinalizerRule(s, e, Next(s, e))
  {
    hide NetworksStable, PodsStable, SpecsValid, NetworkFate, MayVanish, DropFinalizer, DropsFinalizer, WriteBack,
      NetworkControl, PutPod, PutNetwork;
    EventFates(s, e);
    if e.Finish? {
      FinishFate(s, e.p, e.fault);
    } else {
      forall q | Holder(Now(s), q) ensures Holder(Next(s, e), q) {
        assert q in Next(s, e).pods;
        assert PodFate(Now(s), e, Next(s, e), q);
      }
    }
  }

  lemma NoDanglingKept(s: State, e: Event, c': Store)
    requires Shape(s) && WorkersKnow(s) && NoDangling(Now(s))
    requires NetworkFates(s, e, c') && FinalizerRule(s, e, c')
    ensures NoDangling(c')
  {
    hide NetworkFates, DropsFinalizer, WorkersKnow;
    forall n, q | AllocatedIn(c', n, q) ensures Holder(c', q) {
      WhoIsAllocated(s, e, c', n, q);
      if AllocatedIn(Now(s), n, q) {
        if !Holder(c', q) { DroppedIsNowhere(s, q, n); }
      } else {
        assert WorkerKnows(s, q) by { WorkerOf(s, q); }
      }
    }
  }

  lemma WorkerOf(s: State, p: string)
    requires Shape(s) && WorkersKnow(s) && p in s.workers
    ensures WorkerKnows(s, p)
  {
  }

  lemma LivePodsHoldKept(s: State, e: Event, c': Store)
    requires Shape(s) && PodFates(s, e, c') && LivePodsHold(Now(s))
    ensures LivePodsHold(c')
  {
    forall p | p in c'.pods && Live(c'.pods[p]) ensures Holder(c', p) {
      assert PodFate(Now(s), e, c', p);
    }
  }

  // ---------- what the caches will show ----------

  lemma DroppedNotLive(s: State, p: string, j: nat)
    requires Shape(s) && DropsFinalizer(s, p) && s.podPos <= j < |s.hist|
    ensures p in s.hist[j].pods && !Live(s.hist[j].pods[p])
  {
    assert PodSince(s, s.workers[p].podAt, p);
  }

  lemma PodsSeenKept(s: State, e: Event, s': State, c': Store)
    requires Extends(s, e, s', c') && FinalizerRule(s, e, c') && LivePodsHold(c')
    requires PodsSeen(s) && s'.podPos == s.podPos
    ensures PodsSeen(s')
  {
    hide NetworkFates, PodFates;
    forall j, p | s'.podPos <= j < |s'.hist| && p in s'.hist[j].pods && Live(s'.hist[j].pods[p]) ensures Holder(c', p) {
      if j < |s.hist| {
        assert s.hist[j] == s'.hist[j];
        if DropsFinalizer(s, p) { DroppedNotLive(s, p, j); }
      }
    }
  }

  lemma NetworksSeenKept(s: State, e: Event, s': State, c': Store)
    requires Extends(s, e, s', c') && NetworksSeen(s) && s'.netPos == s.netPos
    ensures NetworksSeen(s')
  {
    hide NetworkFates, PodFates;
    forall j, n, p | s'.netPos <= j < |s'.hist| && AllocatedIn(c', n, p) ensures SameNetwork(s', j, n) {
      WhoIsAllocated(s, e, c', n, p);
      if j < |s.hist| {
        assert SameNetwork(s, j, n);
      }
    }
  }

  // ---------- what the workers know ----------

  lemma HistoryExtends(s: State, e: Event)
    requires Shape(s) && Enabled(s, e)
    ensures s.hist <= Apply(s, e).hist
  {
    hide Shape, Enabled, WriteBack, DropFinalizer, NetworkControl, PutPod, PutNetwork;
  }

  lemma WorkerShapeKept(s: State, e: Event, p: string)
    requires Shape(s) && Enabled(s, e) && p in s.workers && p in Apply(s, e).workers
    ensures WorkerShape(Apply(s, e), p, Apply(s, e).workers[p])
  {
    hide WriteBack, DropFinalizer, NetworkControl, PutPod, PutNetwork, Handle, Wanted, WorkerShape;
    HistoryExtends(s, e);
    var w, w' := s.workers[p], Apply(s, e).workers[p];
    assert WorkerShape(s, p, w);
    if w' == w || (w.Listed? && w'.Listed? && w'.podAt == w.podAt && w'.netAt == w.netAt && w'.todo <= w.todo) {
      ShapeFurther(s, Apply(s, e), p, w, w');
    } else {
      NewWorkerShape(s, e, p);
    }
  }

  lemma ShapeFurther(s: State, s': State, p: string, w: Worker, w': Worker)
    requires WorkerShape(s, p, w) && s.hist <= s'.hist
    requires s.podPos <= s'.podPos < |s'.hist| && s.netPos <= s'.netPos < |s'.hist|
    requires w' == w || (w.Listed? && w'.Listed? && w'.podAt == w.podAt && w'.netAt == w.netAt && w'.todo <= w.todo)
    ensures WorkerShape(s', p, w')
  {
  }

  lemma NewWorkerShape(s: State, e: Event, p: string)
    requires Shape(s) && Enabled(s, e) && p in Apply(s, e).workers
    requires p !in s.workers || (e.ListNetworks? && e.p == p)
    ensures WorkerShape(Apply(s, e), p, Apply(s, e).workers[p])
  {
    hide WriteBack, DropFinalizer, NetworkControl, PutPod, PutNetwork, Handle;
  }

  lemma ShapeKept(s: State, e: Event)
    requires Shape(s) && Enabled(s, e)
    ensures Shape(Apply(s, e))
  {
    hide WriteBack, DropFinalizer, NetworkControl, PutPod, PutNetwork, Handle, WorkerShape;
    var s' := Apply(s, e);
    HistoryExtends(s, e);
    forall p | p in s'.workers ensures WorkerShape(s', p, s'.workers[p]) {
      if p in s.workers {
        assert WorkerShape(s, p, s.workers[p]);
        WorkerShapeKept(s, e, p);
      } else {
        NewWorkerShape(s, e, p);
      }
    }
  }

  lemma SettledKept(st: Status, st': Status, p: string, pod: Pod, n: string, q: string)
    requires SameForOtherPods(st, st', p) && q != p && Settled(st, q, pod, n)
    ensures Settled(st', q, pod, n)
  {
    hide SameForOtherPods;
    OthersUntouched(st, st', p, q);
    assert forall k :: IsOptionalRouter(st', k, q) <==> IsOptionalRouter(st, k, q);
  }

  /** A worker that does not act keeps knowing what it knew. */
  lemma BystanderKnows(s: State, e: Event, s': State, c': Store, q: string)
    requires Extends(s, e, s', c') && Versions(s) && FinalizerRule(s, e, c')
    requires q in s.workers && q in s'.workers && s'.workers[q] == s.workers[q] && WorkerKnows(s, q)
    requires e.ProcessNetwork? || e.Finish? ==> e.p != q
    ensures WorkerKnows(s', q)
  {
    hide NetworkFates, PodFates, DropsFinalizer, Versions, Settled, IsAllocated;
    var w := s.workers[q];
    var pod := s.hist[w.podAt].pods[q];
    assert s'.hist[w.podAt] == s.hist[w.podAt];
    if w.Listed? {
      assert s'.hist[w.netAt] == s.hist[w.netAt];
      forall n | AllocatedIn(c', n, q) ensures SameNetwork(s', w.netAt, n) {
        WhoIsAllocated(s, e, c', n, q);
        assert SameNetwork(s, w.netAt, n);
      }
      if !w.hasErrors {
        forall n | SameNetwork(s', w.netAt, n) && n !in w.todo ensures Settled(c'.networks[n].status, q, pod, n) {
          SameBefore(s, e, s', c', w.netAt, n);
          assert Settled(Now(s).networks[n].status, q, pod, n);
          if e.ProcessNetwork? && e.n == n && StatusWrite(s, e.p, n, c'.networks[n]) {
            EditEffect(e.p, s.hist[s.workers[e.p].podAt].pods[e.p], n, Now(s).networks[n]);
            SettledKept(Now(s).networks[n].status, c'.networks[n].status, e.p, pod, n, q);
          }
        }
      }
    }
  }

  /** Whoever holds an allocation of the pod after its own micro-step is a network that the worker has listed. */
  lemma ProcessorSees(s: State, p: string, n: string, fault: Fault, s': State, m: string)
    requires Shape(s) && p in s.workers && WorkerKnows(s, p)
    requires Enabled(s, ProcessNetwork(p, n, fault)) && s' == Apply(s, ProcessNetwork(p, n, fault))
    requires Extends(s, ProcessNetwork(p, n, fault), s', Next(s, ProcessNetwork(p, n, fault)))
    requires AllocatedIn(Next(s, ProcessNetwork(p, n, fault)), m, p)
    ensures SameNetwork(s', s.workers[p].netAt, m)
  {
    hide NetworkFates, PodFates, Settled, IsAllocated, WriteBack, Edit, DropFinalizer, NetworkControl, PutPod,
      PutNetwork, Handle, Live, Holder;
    WhoIsAllocated(s, ProcessNetwork(p, n, fault), Next(s, ProcessNetwork(p, n, fault)), m, p);
    if AllocatedIn(Now(s), m, p) { assert SameNetwork(s, s.workers[p].netAt, m); }
  }

  /** A network the worker has dealt with is as its pod asks for. */
  lemma ProcessorSettles(s: State, p: string, n: string, fault: Fault, s': State, m: string)
    requires Shape(s) && Versions(s) && NetworksStable(s) && p in s.workers && WorkerKnows(s, p)
    requires Enabled(s, ProcessNetwork(p, n, fault)) && s' == Apply(s, ProcessNetwork(p, n, fault))
    requires Extends(s, ProcessNetwork(p, n, fault), s', Next(s, ProcessNetwork(p, n, fault)))
    requires !s'.workers[p].hasErrors && m !in s'.workers[p].todo && SameNetwork(s', s.workers[p].netAt, m)
    ensures Settled(Next(s, ProcessNetwork(p, n, fault)).networks[m].status, p, s.hist[s.workers[p].podAt].pods[p], m)
  {
    hide NetworkFates, PodFates, Versions, NetworksStable, Settled, IsAllocated, WriteBack, Edit, DropFinalizer,
      NetworkControl, PutPod, PutNetwork, Handle, Live, Holder;
    var e := ProcessNetwork(p, n, fault);
    var pod := s.hist[s.workers[p].podAt].pods[p];
    SameBefore(s, e, s', Next(s, e), s.workers[p].netAt, m);
    if m == n {
      WriteBackDone(s, p, n, fault);
      EditEffect(p, pod, n, Now(s).networks[n]);
    } else {
      assert Settled(Now(s).networks[m].status, p, pod, m);
    }
  }

  /** After its own micro-step a worker also knows about the network it has just processed. */
  lemma ProcessorKnows(s: State, p: string, n: string, fault: Fault, s': State)
    requires Shape(s) && Versions(s) && NetworksStable(s) && p in s.workers && WorkerKnows(s, p)
    requires Enabled(s, ProcessNetwork(p, n, fault)) && s' == Apply(s, ProcessNetwork(p, n, fault))
    requires Extends(s, ProcessNetwork(p, n, fault), s', Next(s, ProcessNetwork(p, n, fault)))
    requires FinalizerRule(s, ProcessNetwork(p, n, fault), Next(s, ProcessNetwork(p, n, fault)))
    ensures WorkerKnows(s', p)
  {
    hide NetworkFates, PodFates, DropsFinalizer, Versions, NetworksStable, Settled, IsAllocated, WriteBack, Edit,
      DropFinalizer, NetworkControl, PutPod, PutNetwork, Handle, Live;
    var c' := Next(s, ProcessNetwork(p, n, fault));
    var w := s.workers[p];
    assert s'.hist[w.podAt] == s.hist[w.podAt] && s'.hist[w.netAt] == s.hist[w.netAt];
    forall m | AllocatedIn(c', m, p) ensures SameNetwork(s', w.netAt, m) { ProcessorSees(s, p, n, fault, s', m); }
    if !s'.workers[p].hasErrors {
      forall m | SameNetwork(s', w.netAt, m) && m !in s'.workers[p].todo
        ensures Settled(c'.networks[m].status, p, s.hist[w.podAt].pods[p], m)
      {
        ProcessorSettles(s, p, n, fault, s', m);
      }
    }
  }

  // ---------- all together ----------

  /** Events that only read: the history stays as it is. */
  predicate Reads(e: Event) {
    e.ReadPod? || e.ListNetworks? || e.Abandon? || e.AdvancePods? || e.AdvanceNetworks?
  }

  lemma SpecsAreValid(s: State)
    requires HistoryInv(s)
    ensures SpecsValid(Now(s)) && GoodStore(Now(s))
  {
    hide GoodNetwork, ValidSpec, NoDangling, LivePodsHold, Versions, NetworksStable, PodsStable, PoolsFixed;
    assert GoodStore(s.hist[|s.hist| - 1]);
    forall n | n in Now(s).networks ensures ValidSpec(Now(s).networks[n].spec) {
      GoodNetworkValid(Now(s).networks[n]);
    }
  }

  lemma GoodNetworkValid(nw: Network)
    requires GoodNetwork(nw)
    ensures ValidSpec(nw.spec)
  {
  }

  /** Reading events keep what depends on the history alone. */
  lemma SameHistory(s: State, s': State)
    requires HistoryInv(s) && Shape(s') && s'.hist == s.hist
    ensures HistoryInv(s')
  {
    hide GoodStore;
    forall i, n | 0 <= i < |s'.hist| && SameNetworkVersion(s', i, n) ensures NetworkSince(s', i, n) {
      assert SameNetworkVersion(s, i, n);
      assert NetworkSince(s, i, n);
    }
    forall i, p | 0 <= i < |s'.hist| && SamePodVersion(s', i, p) ensures PodSince(s', i, p) {
      assert SamePodVersion(s, i, p);
      assert PodSince(s, i, p);
    }
    forall i, n | 0 <= i < |s'.hist| && SameNetwork(s', i, n)
      ensures SamePool(s'.hist[i].networks[n].spec, Now(s').networks[n].spec)
    {
      assert SameNetwork(s, i, n);
    }
  }

  lemma SameKnowledge(s: State, s': State, p: string)
    requires Shape(s) && Shape(s') && s'.hist == s.hist
    requires p in s.workers && p in s'.workers && s'.workers[p] == s.workers[p] && WorkerKnows(s, p)
    ensures WorkerKnows(s', p)
  {
    hide Settled, Holder;
    var w := s.workers[p];
    if w.Listed? {
      forall n | AllocatedIn(Now(s'), n, p) ensures SameNetwork(s', w.netAt, n) { assert SameNetwork(s, w.netAt, n); }
      if !w.hasErrors {
        forall n | SameNetwork(s', w.netAt, n) && n !in w.todo
          ensures Settled(Now(s').networks[n].status, p, s'.hist[w.podAt].pods[p], n)
        {
          assert SameNetwork(s, w.netAt, n);
        }
      }
    }
  }

  /** Caches that move forward still show no surprises. */
  lemma SeenAhead(s: State, s': State)
    requires Shape(s) && Shape(s') && s'.hist == s.hist && s.podPos <= s'.podPos && s.netPos <= s'.netPos
    requires PodsSeen(s) && NetworksSeen(s)
    ensures PodsSeen(s') && NetworksSeen(s')
  {
    hide Holder, IsAllocated;
    assert Now(s') == Now(s);
    forall j, n, p | s'.netPos <= j < |s'.hist| && AllocatedIn(Now(s'), n, p) ensures SameNetwork(s', j, n) {
      assert AllocatedIn(Now(s), n, p);
      assert SameNetwork(s, j, n);
    }
  }

  /** What a reading event changes: the history never, the caches only forward. */
  lemma ReadEffect(s: State, e: Event)
    requires Shape(s) && Enabled(s, e) && Reads(e)
    ensures var s' := Apply(s, e); s'.hist == s.hist && s.podPos <= s'.podPos && s.netPos <= s'.netPos
    ensures forall p :: p in Apply(s, e).workers ==>
      (p in s.workers && Apply(s, e).workers[p] == s.workers[p]) || e == ReadPod(p) || e == ListNetworks(p)
  {
    hide WriteBack, DropFinalizer, NetworkControl, PutPod, PutNetwork, Handle, Wanted, Shape;
  }

  lemma ReadKeepsWorker(s: State, e: Event, p: string)
    requires Shape(s) && PodsSeen(s) && NetworksSeen(s) && WorkersKnow(s)
    requires Enabled(s, e) && Reads(e) && Shape(Apply(s, e)) && p in Apply(s, e).workers
    ensures WorkerKnows(Apply(s, e), p)
  {
    hide Apply, Enabled, Shape, PodsSeen, NetworksSeen, WorkerKnows;
    var s' := Apply(s, e);
    ReadEffect(s, e);
    if p in s.workers { WorkerOf(s, p); }
    if p in s.workers && s'.workers[p] == s.workers[p] {
      SameKnowledge(s, s', p);
    } else if e == ListNetworks(p) {
      ListingWorker(s, p);
      ListerKnows(s, s', p);
    } else {
      ReaderKnows(s, s', p);
    }
  }

  lemma ListingWorker(s: State, p: string)
    requires Shape(s) && Enabled(s, ListNetworks(p))
    ensures p in s.workers
  {
  }

  lemma ReadKeepsInv(s: State, e: Event)
    requires Inv(s) && Enabled(s, e) && Reads(e)
    ensures Inv(Apply(s, e))
  {
    hide Apply, Enabled, Shape, HistoryInv, PodsSeen, NetworksSeen, WorkerKnows;
    ShapeOf(s);
    ShapeKept(s, e);
    ReadEffect(s, e);
    SameHistory(s, Apply(s, e));
    SeenAhead(s, Apply(s, e));
    forall p | p in Apply(s, e).workers ensures WorkerKnows(Apply(s, e), p) { ReadKeepsWorker(s, e, p); }
  }

  lemma ShapeOf(s: State)
    requires HistoryInv(s)
    ensures Shape(s) && Versions(s) && NetworksStable(s) && PodsStable(s) && PoolsFixed(s)
  {
  }

  lemma ReaderKnows(s: State, s': State, p: string)
    requires Shape(s) && Enabled(s, ReadPod(p)) && s' == Apply(s, ReadPod(p)) && Shape(s') && PodsSeen(s)
    ensures WorkerKnows(s', p)
  {
    hide Holder, Live;
    assert Now(s') == Now(s) && s'.workers[p] == Loaded(s.podPos);
    assert Live(s.hist[s.podPos].pods[p]) ==> Holder(Now(s), p);
  }

  lemma ListerKnows(s: State, s': State, p: string)
    requires Shape(s) && Enabled(s, ListNetworks(p)) && s' == Apply(s, ListNetworks(p)) && Shape(s')
    requires NetworksSeen(s) && WorkerKnows(s, p)
    ensures WorkerKnows(s', p)
  {
    hide Settled, Holder, IsAllocated, Live, WriteBack, DropFinalizer, NetworkControl, PutPod, PutNetwork, Handle;
    var w := s'.workers[p];
    assert Now(s') == Now(s);
    forall n | AllocatedIn(Now(s'), n, p) ensures SameNetwork(s', w.netAt, n) {
      assert AllocatedIn(Now(s), n, p);
      assert SameNetwork(s, s.netPos, n);
    }
  }

  lemma WriteExtends(s: State, e: Event)
    requires HistoryInv(s) && Enabled(s, e) && !Reads(e)
    ensures Extends(s, e, Apply(s, e), Next(s, e)) && FinalizerRule(s, e, Next(s, e))
    ensures Apply(s, e).podPos == s.podPos && Apply(s, e).netPos == s.netPos
  {
    hide HistoryInv, NetworkFates, PodFates, FinalizerRule, WriteBack, DropFinalizer, NetworkControl, PutPod,
      PutNetwork, Handle, SpecsValid;
    ShapeOf(s);
    SpecsAreValid(s);
    ShapeKept(s, e);
    EventFates(s, e);
    FinalizersKept(s, e);
  }

  lemma WriteKeepsHistory(s: State, e: Event)
    requires HistoryInv(s) && WorkersKnow(s) && Enabled(s, e) && !Reads(e)
    ensures HistoryInv(Apply(s, e))
  {
    hide NetworkFates, PodFates, FinalizerRule, Enabled, Apply, Next, NetworksGood, NoDangling, LivePodsHold, Versions,
      NetworksStable, PodsStable, PoolsFixed, WorkersKnow, SpecsValid;
    ShapeOf(s);
    var s', c' := Apply(s, e), Next(s, e);
    WriteExtends(s, e);
    SpecsAreValid(s);
    VersionsKept(s, e, s', c');
    NetworksStableKept(s, e, s', c');
    PodsStableKept(s, e, s', c');
    PoolsFixedKept(s, e, s', c');
    NetworksGoodKept(s, e, c');
    NoDanglingKept(s, e, c');
    LivePodsHoldKept(s, e, c');
  }

  lemma WriteKeepsWorkers(s: State, e: Event)
    requires HistoryInv(s) && WorkersKnow(s) && Enabled(s, e) && !Reads(e)
    ensures Shape(Apply(s, e)) && WorkersKnow(Apply(s, e))
  {
    hide HistoryInv, NetworkFates, PodFates, FinalizerRule, WriteBack, DropFinalizer, NetworkControl, PutPod,
      PutNetwork, Handle, WorkerKnows, Versions, NetworksStable;
    ShapeOf(s);
    var s', c' := Apply(s, e), Next(s, e);
    WriteExtends(s, e);
    forall p | p in s'.workers ensures WorkerKnows(s', p) {
      assert WorkerKnows(s, p);
      if e.ProcessNetwork? && e.p == p {
        ProcessorKnows(s, p, e.n, e.fault, s');
      } else {
        BystanderKnows(s, e, s', c', p);
      }
    }
  }

  /** Every event keeps the invariant. */
  lemma EventKeepsInv(s: State, e: Event)
    requires Inv(s) && Enabled(s, e)
    ensures Inv(Apply(s, e))
  {
    hide HistoryInv, NetworkFates, PodFates, FinalizerRule, Enabled, Apply, Next, LivePodsHold, WorkersKnow, PodsSeen,
      NetworksSeen;
    if Reads(e) {
      ReadKeepsInv(s, e);
    } else {
      ShapeOf(s);
      var s', c' := Apply(s, e), Next(s, e);
      WriteKeepsHistory(s, e);
      WriteKeepsWorkers(s, e);
      WriteExtends(s, e);
      SpecsAreValid(s');
      PodsSeenKept(s, e, s', c');
      NetworksSeenKept(s, e, s', c');
    }
  }
}
