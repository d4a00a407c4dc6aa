/** What one event does to each network and each pod of the store. */
module Steps {
  import opened Wrappers
  import opened Addresses
  import opened Api
  import opened Validating
  import opened Cluster
  import opened Invariant

  // ---------- the fate of a network ----------

  ghost predicate FreshNetwork(c: Store, n: string, nw: Network) {
    && n !in c.networks && nw.uid == nw.version == c.next
    && nw.status == EMPTY_STATUS && ValidSpec(nw.spec) && !nw.deleting
  }

  /**
   A write that keeps the status: the spec stays valid with its pool, deletion is not taken back,
   and the finalizer only goes from a deleting network without allocations.
   */
  ghost predicate MainWrite(before: Network, after: Network) {
    && after.uid == before.uid && after.status == before.status
    && (before.deleting ==> after.deleting)
    && SamePool(before.spec, after.spec) && ValidSpec(after.spec)
    && (NETWORK_FINALIZER in before.finalizers && NETWORK_FINALIZER !in after.finalizers
        ==> before.deleting && before.status.allocations == [])
  }

  /** A status write by the worker of a pod, computed from the very object it replaces. */
  ghost predicate StatusWrite(s: State, p: string, n: string, after: Network)
    requires Shape(s)
  {
    && n in Now(s).networks
    && p in s.workers && s.workers[p].Listed?
    && SameNetwork(s, s.workers[p].netAt, n)
    && var before := Now(s).networks[n];
    && NetworkSince(s, s.workers[p].netAt, n)
    && Edit(p, s.hist[s.workers[p].podAt].pods[p], n, before) == Ok(after.status)
    && after == before.(status := after.status, version := after.version)
  }

  ghost predicate NetworkFate(s: State, e: Event, c': Store, n: string)
    requires Shape(s) && n in c'.networks
  {
    var c := Now(s);
    var after := c'.networks[n];
    || (n in c.networks && after == c.networks[n])
    || (&& after.version == c.next < c'.next
        && (|| FreshNetwork(c, n, after)
            || (n in c.networks && MainWrite(c.networks[n], after))
            || (e.ProcessNetwork? && e.n == n && StatusWrite(s, e.p, n, after))))
  }

  /** Why a network is gone: nobody protected it, or it was protected and empty. */
  ghost predicate MayVanish(nw: Network) {
    NETWORK_FINALIZER !in nw.finalizers || nw.status.allocations == []
  }

  // ---------- the fate of a pod ----------

  ghost predicate PodFate(c: Store, e: Event, c': Store, p: string)
    requires p in c'.pods
  {
    var after := c'.pods[p];
    || (p in c.pods && after == c.pods[p])
    || (&& after.version == c.next < c'.next
        && (|| (p !in c.pods && !after.deleting && (Live(after) ==> POD_FINALIZER in after.finalizers))
            || (&& p in c.pods
                && (c.pods[p].deleting ==> after.deleting)
                && (after.Injected() && !c.pods[p].Injected() ==> POD_FINALIZER in after.finalizers)
                && (|| POD_FINALIZER !in c.pods[p].finalizers
                    || POD_FINALIZER in after.finalizers
                    || (e.Finish? && e.p == p && c.pods[p].deleting)))))
  }

  // ---------- the store after an event ----------

  /** The newest store after the event. */
  ghost function Next(s: State, e: Event): Store
    requires Shape(s) && Enabled(s, e)
  {
    Now(Apply(s, e))
  }

  ghost predicate SpecsValid(c: Store) {
    forall n :: n in c.networks ==> ValidSpec(c.networks[n].spec)
  }

  lemma SnapshotIsCurrent(s: State, i: nat, n: string)
    requires Shape(s) && NetworksStable(s) && i < |s.hist| && SameNetworkVersion(s, i, n)
    ensures s.hist[i].networks[n] == Now(s).networks[n] && NetworkSince(s, i, n) && SameNetwork(s, i, n)
  {
    assert NetworkSince(s, i, n);
  }

  /** Every network of the new store has one of the fates, and those that vanish may. */
  ghost predicate NetworkFates(s: State, e: Event, c': Store)
    requires Shape(s)
  {
    && Now(s).next <= c'.next
    && (forall m :: m in c'.networks ==> NetworkFate(s, e, c', m))
    && (forall m :: m in Now(s).networks && m !in c'.networks ==> MayVanish(Now(s).networks[m]))
  }

  /** A main write of one network leaves every network with one of the fates. */
  lemma MainWriteFates(s: State, e: Event, n: string, after: Network)
    requires Shape(s) && n in Now(s).networks && MainWrite(Now(s).networks[n], after)
    ensures var c' := PutNetwork(Now(s), n, after); c'.pods == Now(s).pods && NetworkFates(s, e, c')
  {
    hide ValidSpec, SamePool, Edit, StatusWrite, FreshNetwork;
  }

  lemma NoWriteFates(s: State, e: Event)
    requires Shape(s)
    ensures NetworkFates(s, e, Now(s))
  {
    hide ValidSpec, Edit, MainWrite, StatusWrite, FreshNetwork, MayVanish;
  }

  /** What the controller sends, once accepted, is a main write. */
  lemma ControlledIsMainWrite(nw: Network)
    requires ValidSpec(nw.spec) && Controlled(nw).Some?
    ensures MainWrite(nw, nw.(finalizers := Controlled(nw).value.finalizers))
    ensures Handle(Update(nw.spec, nw.spec)) == Allowed
  {
    hide Handle;
    HandleExact(Update(nw.spec, nw.spec));
  }

  lemma ControlledKeepsRest(nw: Network)
    requires Controlled(nw).Some?
    ensures Controlled(nw).value == nw.(finalizers := Controlled(nw).value.finalizers)
  {
  }

  lemma NetworkPassFate(s: State, n: string, at: nat, fault: Fault)
    requires Shape(s) && NetworksStable(s) && SpecsValid(Now(s)) && Enabled(s, NetworkPass(n, at, fault))
    ensures var c' := NetworkControl(Now(s), n, s.hist[at].networks[n], fault);
      c'.pods == Now(s).pods && NetworkFates(s, NetworkPass(n, at, fault), c')
  {
    hide ValidSpec, Edit, Handle, NetworksStable, NetworkFates, PutNetwork, MainWrite, Controlled;
    var nw := s.hist[at].networks[n];
    var e := NetworkPass(n, at, fault);
    NoWriteFates(s, e);
    if Controlled(nw).Some? { ControlledKeepsRest(nw); }
    if SameNetworkVersion(s, at, n) && Controlled(nw).Some? {
      SnapshotIsCurrent(s, at, n);
      ControlledIsMainWrite(nw);
      MainWriteFates(s, e, n, nw.(finalizers := Controlled(nw).value.finalizers));
    }
  }

  lemma CreateNetworkFate(s: State, n: string, spec: Spec, finalizers: set<string>)
    requires Shape(s) && SpecsValid(Now(s)) && Enabled(s, CreateNetwork(n, spec, finalizers))
    ensures var e := CreateNetwork(n, spec, finalizers);
      Next(s, e).pods == Now(s).pods && NetworkFates(s, e, Next(s, e))
  {
    hide ValidSpec, Edit, Handle;
    HandleExact(Create(spec));
  }

  lemma EditNetworkFate(s: State, n: string, spec: Spec, finalizers: set<string>)
    requires Shape(s) && SpecsValid(Now(s)) && Enabled(s, EditNetwork(n, spec, finalizers))
    ensures var e := EditNetwork(n, spec, finalizers);
      Next(s, e).pods == Now(s).pods && NetworkFates(s, e, Next(s, e))
  {
    hide ValidSpec, RoutablesParse, ParseCIDR, Edit, Handle, NetworkFates, PutNetwork;
    var nw := Now(s).networks[n];
    HandleExact(Update(nw.spec, spec));
    UpdateKeepsValidity(nw.spec, spec);
    MainWriteFates(s, EditNetwork(n, spec, finalizers), n, nw.(spec := spec, finalizers := finalizers));
  }

  lemma DeleteNetworkFate(s: State, n: string)
    requires Shape(s) && SpecsValid(Now(s)) && Enabled(s, DeleteNetwork(n))
    ensures var e := DeleteNetwork(n);
      Next(s, e).pods == Now(s).pods && NetworkFates(s, e, Next(s, e))
  {
    hide ValidSpec, Edit, Handle, NetworkFates, PutNetwork;
    MainWriteFates(s, DeleteNetwork(n), n, Now(s).networks[n].(deleting := true));
  }

  /** Storing the edited status of the listed object, which is still the stored one. */
  lemma StatusWriteFates(s: State, p: string, n: string, fault: Fault, st: Status)
    requires Shape(s) && p in s.workers && s.workers[p].Listed? && n in s.hist[s.workers[p].netAt].networks
    requires var at := s.workers[p].netAt; n in Now(s).networks && SameNetwork(s, at, n) && NetworkSince(s, at, n)
    requires Edit(p, s.hist[s.workers[p].podAt].pods[p], n, Now(s).networks[n]) == Ok(st)
    ensures var c' := PutNetwork(Now(s), n, Now(s).networks[n].(status := st));
      c'.pods == Now(s).pods && NetworkFates(s, ProcessNetwork(p, n, fault), c')
  {
    hide ValidSpec, Edit, MainWrite, FreshNetwork, NetworkSince, SameNetwork;
  }

  lemma WriteBackFate(s: State, p: string, n: string, fault: Fault)
    requires Shape(s) && NetworksStable(s) && SpecsValid(Now(s)) && Enabled(s, ProcessNetwork(p, n, fault))
    ensures var (c', failed) := WriteBack(s, p, n, fault);
      c'.pods == Now(s).pods && NetworkFates(s, ProcessNetwork(p, n, fault), c')
  {
    hide ValidSpec, SpecsValid, Edit, NetworksStable, NetworkFates, PutNetwork, Wanted;
    var at := s.workers[p].netAt;
    NoWriteFates(s, ProcessNetwork(p, n, fault));
    var r := Edit(p, s.hist[s.workers[p].podAt].pods[p], n, s.hist[at].networks[n]);
    if SameNetworkVersion(s, at, n) && r.Ok? {
      SnapshotIsCurrent(s, at, n);
      StatusWriteFates(s, p, n, fault, r.value);
    }
  }

  /** Processing a network is an error exactly if the edit is refused, the object has changed, or the request fails. */
  lemma WriteBackFails(s: State, p: string, n: string, fault: Fault)
    requires Shape(s) && Enabled(s, ProcessNetwork(p, n, fault))
    ensures var w := s.workers[p];
      WriteBack(s, p, n, fault).1 <==>
        || Edit(p, s.hist[w.podAt].pods[p], n, s.hist[w.netAt].networks[n]).Err?
        || fault != NoFault
        || (n in Now(s).networks && !SameNetworkVersion(s, w.netAt, n))
  {
    hide Edit, PutNetwork;
  }

  /** Dropping the finalizer fails exactly if the pod is gone or has changed, or the request fails. */
  lemma DropFails(s: State, p: string, fault: Fault)
    requires Shape(s) && Enabled(s, Finish(p, fault))
    ensures var w := s.workers[p];
      var pod := s.hist[w.podAt].pods[p];
      DropFinalizer(s, p, fault).1 <==>
        && pod.deleting && !w.hasErrors && POD_FINALIZER in pod.finalizers
        && (fault != NoFault || !SamePodVersion(s, w.podAt, p))
  {
    hide PutPod;
  }

  /** A network processed without an error has exactly the status the edit of its current object asks for. */
  lemma WriteBackDone(s: State, p: string, n: string, fault: Fault)
    requires Shape(s) && NetworksStable(s) && Enabled(s, ProcessNetwork(p, n, fault))
    requires !WriteBack(s, p, n, fault).1 && n in WriteBack(s, p, n, fault).0.networks
    ensures n in Now(s).networks
    ensures Edit(p, s.hist[s.workers[p].podAt].pods[p], n, Now(s).networks[n])
      == Ok(WriteBack(s, p, n, fault).0.networks[n].status)
  {
    hide Edit, Handle, NetworksStable;
    var at := s.workers[p].netAt;
    if SameNetworkVersion(s, at, n) { SnapshotIsCurrent(s, at, n); }
  }

  // ---------- pods ----------

  /** Every pod of the new store has one of the fates; one that vanishes had no finalizer, or its worker dropped it. */
  ghost predicate PodFates(s: State, e: Event, c': Store)
    requires Shape(s)
  {
    && Now(s).next <= c'.next
    && (forall q :: q in c'.pods ==> PodFate(Now(s), e, c', q))
    && (forall q :: Holder(Now(s), q) && q !in c'.pods ==> e.Finish? && e.p == q)
  }

  lemma SamePods(s: State, e: Event, c': Store)
    requires Shape(s) && c'.pods == Now(s).pods && Now(s).next <= c'.next
    ensures PodFates(s, e, c')
  {
  }

  /** What any writer but the pod's own worker may put in the place of a pod. */
  ghost predicate PodWrite(c: Store, p: string, after: Pod) {
    if p !in c.pods then !after.deleting && (Live(after) ==> POD_FINALIZER in after.finalizers)
    else
      && (c.pods[p].deleting ==> after.deleting)
      && (after.Injected() && !c.pods[p].Injected() ==> POD_FINALIZER in after.finalizers)
      && (POD_FINALIZER in c.pods[p].finalizers ==> POD_FINALIZER in after.finalizers)
  }

  lemma PodWriteFates(s: State, e: Event, p: string, after: Pod)
    requires Shape(s) && PodWrite(Now(s), p, after)
    ensures var c' := PutPod(Now(s), p, after); c'.networks == Now(s).networks && PodFates(s, e, c')
  {
  }

  lemma PodEventFate(s: State, e: Event)
    requires Shape(s) && Enabled(s, e) && (e.CreatePod? || e.EditPod? || e.DeletePod?)
    ensures Next(s, e).networks == Now(s).networks && PodFates(s, e, Next(s, e))
  {
    hide PutPod, PodFates;
    match e
    case CreatePod(p, pod) => PodWriteFates(s, e, p, pod);
    case EditPod(p, pod) => PodWriteFates(s, e, p, pod);
    case DeletePod(p) => PodWriteFates(s, e, p, Now(s).pods[p].(deleting := true));
  }

  /** When a worker really drops the finalizer, it has seen the pod as it is now, and deleting. */
  ghost predicate DropsFinalizer(s: State, p: string)
    requires Shape(s)
  {
    && p in s.workers && s.workers[p].Listed? && !s.workers[p].hasErrors && s.workers[p].todo == {}
    && p in Now(s).pods && PodSince(s, s.workers[p].podAt, p) && Now(s).pods[p].deleting
  }

  lemma FinishFate(s: State, p: string, fault: Fault)
    requires Shape(s) && PodsStable(s) && Enabled(s, Finish(p, fault))
    ensures var (c', failed) := DropFinalizer(s, p, fault);
      && c'.networks == Now(s).networks && PodFates(s, Finish(p, fault), c')
      && (c' == Now(s) || DropsFinalizer(s, p))
      && forall q :: q != p && Holder(Now(s), q) ==> Holder(c', q)
  {
    hide PodsStable, PodFates, PodSince, UpdatePod, DropFinalizer, Holder;
    var at := s.workers[p].podAt;
    var pod := s.hist[at].pods[p];
    var sent := pod.(finalizers := pod.finalizers - {POD_FINALIZER});
    DropOutcome(s, p, fault);
    var c' := DropFinalizer(s, p, fault).0;
    if c' == Now(s) {
      SamePods(s, Finish(p, fault), c');
    } else {
      UpdatedVersion(Now(s), p, sent);
      StablePod(s, at, p);
      PodSinceThen(s, at, p);
      UpdateDropFate(s, p, fault);
    }
  }

  /** The store is as it was, or the pod without its finalizer was written into it. */
  lemma DropOutcome(s: State, p: string, fault: Fault)
    requires Shape(s) && Enabled(s, Finish(p, fault))
    ensures var w, c' := s.workers[p], DropFinalizer(s, p, fault).0;
      var pod := s.hist[w.podAt].pods[p];
      || c' == Now(s)
      || (&& pod.deleting && !w.hasErrors
          && c' == UpdatePod(Now(s), p, pod.(finalizers := pod.finalizers - {POD_FINALIZER})).0)
  {
    hide UpdatePod;
  }

  /** A pod update that changes the store was sent with the stored version. */
  lemma UpdatedVersion(c: Store, p: string, sent: Pod)
    requires UpdatePod(c, p, sent).0 != c
    ensures p in c.pods && c.pods[p].version == sent.version
  {
  }

  lemma PodSinceThen(s: State, i: nat, p: string)
    requires Shape(s) && i < |s.hist| && p in Now(s).pods && PodSince(s, i, p)
    ensures p in s.hist[i].pods && s.hist[i].pods[p] == Now(s).pods[p]
  {
  }

  /** What that write does to a deleting pod, and to the others. */
  lemma UpdateDropFate(s: State, p: string, fault: Fault)
    requires Shape(s) && p in Now(s).pods && Now(s).pods[p].deleting
    ensures var pod := Now(s).pods[p];
      var c' := UpdatePod(Now(s), p, pod.(finalizers := pod.finalizers - {POD_FINALIZER})).0;
      && c'.networks == Now(s).networks && PodFates(s, Finish(p, fault), c')
      && forall q :: q != p && Holder(Now(s), q) ==> Holder(c', q)
  {
  }

  lemma StablePod(s: State, i: nat, p: string)
    requires Shape(s) && PodsStable(s) && i < |s.hist| && SamePodVersion(s, i, p)
    ensures PodSince(s, i, p)
  {
  }

  // ---------- any event ----------

  lemma SameNetworks(s: State, e: Event, c': Store)
    requires Shape(s) && c'.networks == Now(s).networks && Now(s).next <= c'.next
    ensures NetworkFates(s, e, c')
  {
    hide Edit, ValidSpec;
  }

  lemma EventFates(s: State, e: Event)
    requires Shape(s) && NetworksStable(s) && PodsStable(s) && SpecsValid(Now(s)) && Enabled(s, e)
    ensures NetworkFates(s, e, Next(s, e)) && PodFates(s, e, Next(s, e))
  {
    hide Edit, Handle, NetworksStable, PodsStable, SpecsValid, WriteBack, DropFinalizer, NetworkControl, PutPod,
      PutNetwork, NetworkFate, PodFate, MayVanish, DropsFinalizer, Holder, Enabled, Wanted;
    match e
    case ProcessNetwork(p, n, fault) => WriteBackFate(s, p, n, fault); SamePods(s, e, Next(s, e));
    case Finish(p, fault) => FinishFate(s, p, fault); SameNetworks(s, e, Next(s, e));
    case NetworkPass(n, at, fault) => NetworkPassFate(s, n, at, fault); SamePods(s, e, Next(s, e));
    case CreatePod(_, _) => PodEventFate(s, e); SameNetworks(s, e, Next(s, e));
    case EditPod(_, _) => PodEventFate(s, e); SameNetworks(s, e, Next(s, e));
    case DeletePod(_) => PodEventFate(s, e); SameNetworks(s, e, Next(s, e));
    case CreateNetwork(n, spec, finalizers) => CreateNetworkFate(s, n, spec, finalizers); SamePods(s, e, Next(s, e));
    case EditNetwork(n, spec, finalizers) => EditNetworkFate(s, n, spec, finalizers); SamePods(s, e, Next(s, e));
    case DeleteNetwork(n) => DeleteNetworkFate(s, n); SamePods(s, e, Next(s, e));
    case _ => SamePods(s, e, Next(s, e)); SameNetworks(s, e, Next(s, e));
  }
}
