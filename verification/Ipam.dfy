/**
 The IPAM edits of the pod reconciler: allocateIP and deallocateIP, first as
 functions from one status to the next, then as methods that edit an object in place.
 */
module Ipam {
  import opened Wrappers
  import opened Addresses
  import opened Api
  import opened Allocations
  import opened PickIP

  datatype IpamError =
    | NoPodIP
    | NetworkDeleting
    | OutsideCIDR
    | Pick(error: PickError)

  // ---------- the edits as functions ----------

  /** The first request of the pod for this network; text that is no address counts as none. */
  function RequestFor(pod: Pod, n: string): Requested {
    var items := ItemsFor(pod.annotations.requests, n);
    if items == [] then Unparsable else items[0]
  }

  /** The first part of the annotation for the network, or Unparsable when there is none, is the given request. */
  ghost predicate FirstRequest(parts: seq<Scoped<Requested>>, n: string, q: Requested) {
    || (q == Unparsable && forall k :: 0 <= k < |parts| ==> parts[k].network != n)
    || (exists k :: 0 <= k < |parts| && parts[k] == Scoped(n, q) && forall j :: 0 <= j < k ==> parts[j].network != n)
  }

  lemma RequestIsFirst(pod: Pod, n: string)
    ensures FirstRequest(pod.annotations.requests, n, RequestFor(pod, n))
  {
    var parts := pod.annotations.requests;
    var items := ItemsFor(parts, n);
    var at := ItemsForInOrder(parts, n);
    if items != [] {
      assert parts[at[0]] == Scoped(n, items[0]);
      forall j | 0 <= j < |parts| && parts[j].network == n ensures at[0] <= j {
        var i :| 0 <= i < |at| && at[i] == j;
      }
    }
  }

  lemma FirstRequestUnique(parts: seq<Scoped<Requested>>, n: string, q: Requested, r: Requested)
    requires FirstRequest(parts, n, q) && FirstRequest(parts, n, r)
    ensures q == r
  {
  }

  /** A new address for the pod, or the reason there is none. */
  function NewIP(n: string, nw: Network, pod: Pod): Result<string, IpamError> {
    var request := RequestFor(pod, n);
    match ParseCIDR(nw.spec.allocatableCIDR)
    case None => Err(Pick(InvalidCIDR))
    case Some(c) =>
      if request.NotIPv4? || (request.IPv4? && !InNet(c, request.value)) then Err(OutsideCIDR)
      else
        LastInSpace(c);
        var text := if request.IPv4? then Some(Text(request.value)) else None;
        match PickFrom(c, IPsOf(nw.status.allocations), text)
        case Err(e) => Err(Pick(e))
        case Ok(ip) => Ok(ip)
  }

  /** The allocations after allocateIP: the pod's entry refreshed, or a new one appended. */
  function Grant(n: string, nw: Network, p: string, pod: Pod, extraNetworks: seq<string>)
    : Result<seq<Allocation>, IpamError>
  {
    var l := nw.status.allocations;
    var i := IndexOfPod(l, p);
    if i < |l| then Ok(l[i := l[i].(extraNetworks := extraNetworks)])
    else if nw.deleting then Err(NetworkDeleting)
    else match NewIP(n, nw, pod)
      case Err(e) => Err(e)
      case Ok(ip) => Ok(l + [Allocation(p, pod.podIP, ip, extraNetworks)])
  }

  function RouterEdit(l: seq<Allocation>, a: Allocation, isRouter: bool): seq<Allocation> {
    if isRouter then Ensure(l, a) else Without(l, a.podName)
  }

  /** Under every wanted key the entry is present, under every other key its pod is not. */
  function OptionalEdit(m: map<string, seq<Allocation>>, a: Allocation,
                        wanted: set<string>): map<string, seq<Allocation>>
  {
    map k | k in m.Keys + wanted :: RouterEdit(Under(m, k), a, k in wanted)
  }

  function Elements<T(==)>(s: seq<T>): set<T> {
    set x | x in s
  }

  function Allocate(n: string, nw: Network, p: string, pod: Pod, isRouter: bool,
                    extraNetworks: seq<string>, extraRouters: seq<string>): Result<Status, IpamError>
  {
    if pod.podIP == "" then Err(NoPodIP)
    else match Grant(n, nw, p, pod, extraNetworks)
      case Err(e) => Err(e)
      case Ok(l) =>
        GrantFinds(n, nw, p, pod, extraNetworks);
        var a := Find(l, p).value;
        Ok(Status(l, RouterEdit(nw.status.routers, a, isRouter),
                  OptionalEdit(nw.status.optionalRouters, a, Elements(extraRouters))))
  }

  function Deallocate(st: Status, p: string): Status {
    Status(Without(st.allocations, p), Without(st.routers, p),
           map k | k in st.optionalRouters :: Without(st.optionalRouters[k], p))
  }

  // ---------- membership ----------

  predicate IsAllocated(st: Status, p: string) {
    Find(st.allocations, p).Some?
  }

  predicate IsRouter(st: Status, p: string) {
    Find(st.routers, p).Some?
  }

  predicate IsOptionalRouter(st: Status, k: string, p: string) {
    Find(Under(st.optionalRouters, k), p).Some?
  }

  /** The pod is in none of the three collections. */
  ghost predicate Absent(st: Status, p: string) {
    !IsAllocated(st, p) && !IsRouter(st, p) && forall k :: !IsOptionalRouter(st, k, p)
  }

  /** Apart from the entries of one pod, the collections hold the same entries in the same order. */
  ghost predicate SameForOtherPods(st: Status, st': Status, p: string) {
    && Without(st.allocations, p) == Without(st'.allocations, p)
    && Without(st.routers, p) == Without(st'.routers, p)
    && forall k :: Without(Under(st.optionalRouters, k), p) == Without(Under(st'.optionalRouters, k), p)
  }

  // ---------- what one edit does ----------

  lemma GrantFinds(n: string, nw: Network, p: string, pod: Pod, extraNetworks: seq<string>)
    requires Grant(n, nw, p, pod, extraNetworks).Ok?
    ensures var l := nw.status.allocations;
      var l' := Grant(n, nw, p, pod, extraNetworks).value;
      var f := Find(l', p);
      && f.Some? && f.value.extraNetworks == extraNetworks
      && Without(l', p) == Without(l, p)
      && (if Find(l, p).Some? then SameAddresses(f.value, Find(l, p).value)
          else NewIP(n, nw, pod) == Ok(f.value.ip) && f.value.podIP == pod.podIP && l' == l + [f.value])
  {
    var l := nw.status.allocations;
    var i := IndexOfPod(l, p);
    if i < |l| {
      var a := l[i].(extraNetworks := extraNetworks);
      FindUpdate(l, i, a);
      WithoutUpdate(l, i, a, p);
    } else {
      var a := Allocation(p, pod.podIP, NewIP(n, nw, pod).value, extraNetworks);
      FindAppend(l, a, p);
      WithoutAppend(l, a, p);
    }
  }

  /** A new address is in the pool and held by no pod of the network. */
  lemma NewIPIsFresh(n: string, nw: Network, pod: Pod)
    requires NewIP(n, nw, pod).Ok?
    ensures ParseCIDR(nw.spec.allocatableCIDR).Some?
    ensures TextInNet(ParseCIDR(nw.spec.allocatableCIDR).value, NewIP(n, nw, pod).value)
    ensures NewIP(n, nw, pod).value !in IPsOf(nw.status.allocations)
  {
    hide Text;
    var c := ParseCIDR(nw.spec.allocatableCIDR).value;
    var request := RequestFor(pod, n);
    LastInSpace(c);
    if request.IPv4? { TextOf(c, request.value); }
    PickedInNet(c, IPsOf(nw.status.allocations), if request.IPv4? then Some(Text(request.value)) else None);
  }

  lemma {:induction false} FewIPs(l: seq<Allocation>)
    ensures |IPsOf(l)| <= |l|
  {
    if l != [] {
      var n := |l| - 1;
      FewIPs(l[..n]);
      assert l == l[..n] + [l[n]];
      assert IPsOf(l) == IPsOf(l[..n]) + {l[n].ip};
    }
  }

  /** A pod without a request gets an address whenever more lie above the written one than there are allocations. */
  lemma NewIPWithRoom(n: string, nw: Network, pod: Pod, c: Cidr)
    requires ParseCIDR(nw.spec.allocatableCIDR) == Some(c) && RequestFor(pod, n).Unparsable?
    requires |nw.status.allocations| < Last(c) - c.written
    ensures NewIP(n, nw, pod).Ok?
  {
    hide Last, PickFrom, Text;
    FewIPs(nw.status.allocations);
    PoolNotExhausted(c, IPsOf(nw.status.allocations));
  }

  /** The address that a new pod with the given request has to get, or the reason why it gets none. */
  ghost predicate RightAddress(nw: Network, q: Requested, r: Result<string, IpamError>) {
    match ParseCIDR(nw.spec.allocatableCIDR)
    case None => r == Err(Pick(InvalidCIDR))
    case Some(c) =>
      var taken := IPsOf(nw.status.allocations);
      match q
      case NotIPv4 => r == Err(OutsideCIDR)
      case IPv4(a) =>
        if !InNet(c, a) then r == Err(OutsideCIDR)
        else
          LastInSpace(c);
          r == if Text(a) in taken then Err(Pick(DuplicateIPRequest)) else Ok(Text(a))
      case Unparsable =>
        match r
        case Ok(t) => exists a :: Free(c, taken, a) && t == Text(a) && forall k :: Free(c, taken, k) ==> a <= k
        case Err(e) => e == Pick(AddressPoolExhausted) && forall k :: !Free(c, taken, k)
  }

  /** A new address is the requested one if that is in the pool and free, and without a request the least free one. */
  lemma NewIPExactly(n: string, nw: Network, pod: Pod, q: Requested)
    requires FirstRequest(pod.annotations.requests, n, q)
    ensures RightAddress(nw, q, NewIP(n, nw, pod))
  {
    hide ParseCIDR, Text, RequestFor;
    RequestIsFirst(pod, n);
    FirstRequestUnique(pod.annotations.requests, n, q, RequestFor(pod, n));
    if ParseCIDR(nw.spec.allocatableCIDR).Some? {
      FirstFreeHostExact(ParseCIDR(nw.spec.allocatableCIDR).value, IPsOf(nw.status.allocations));
    }
  }

  /** What allocateIP has to make of the pod's own entry, or the error with which it has to refuse. */
  ghost predicate RightEntry(n: string, nw: Network, p: string, pod: Pod, extraNetworks: seq<string>,
                             r: Result<Allocation, IpamError>)
  {
    var found := Find(nw.status.allocations, p);
    if pod.podIP == "" then r == Err(NoPodIP)
    else if found.Some? then r == Ok(found.value.(extraNetworks := extraNetworks))
    else if nw.deleting then r == Err(NetworkDeleting)
    else
      && (r.Ok? ==> r.value == Allocation(p, pod.podIP, r.value.ip, extraNetworks))
      && exists q :: FirstRequest(pod.annotations.requests, n, q)
           && RightAddress(nw, q, if r.Ok? then Ok(r.value.ip) else Err(r.error))
  }

  /** allocateIP decides as it should, whatever the case. */
  lemma AllocateExactly(n: string, nw: Network, p: string, pod: Pod, isRouter: bool,
                        extraNetworks: seq<string>, extraRouters: seq<string>)
    ensures var r := Allocate(n, nw, p, pod, isRouter, extraNetworks, extraRouters);
      && (r.Ok? ==> IsAllocated(r.value, p))
      && RightEntry(n, nw, p, pod, extraNetworks,
                    if r.Ok? then Ok(Find(r.value.allocations, p).value) else Err(r.error))
  {
    hide NewIP, RightAddress, Find, FirstRequest, RouterEdit, OptionalEdit;
    RequestIsFirst(pod, n);
    NewIPExactly(n, nw, pod, RequestFor(pod, n));
    if Grant(n, nw, p, pod, extraNetworks).Ok? { GrantFinds(n, nw, p, pod, extraNetworks); }
  }

  lemma RouterEditEffect(l: seq<Allocation>, a: Allocation, isRouter: bool)
    ensures Find(RouterEdit(l, a, isRouter), a.podName).Some? <==> isRouter
    ensures Without(RouterEdit(l, a, isRouter), a.podName) == Without(l, a.podName)
    ensures forall e :: e in RouterEdit(l, a, isRouter) ==> e in l || e == a
    ensures DistinctPods(l) ==> DistinctPods(RouterEdit(l, a, isRouter))
  {
    var p := a.podName;
    FindEnsure(l, a);
    FindWithout(l, p, p);
    WithoutTwice(l, p);
    WithoutMembers(l, p);
    if DistinctPods(l) {
      DistinctEnsure(l, a);
      DistinctWithout(l, p);
    }
  }

  /**
   A successful allocateIP: the pod is allocated, a router iff asked, and listed under
   an optional route iff it is one of its extra routers, whatever was there before.
   */
  lemma AllocateEffect(n: string, nw: Network, p: string, pod: Pod, isRouter: bool,
                       extraNetworks: seq<string>, extraRouters: seq<string>)
    requires Allocate(n, nw, p, pod, isRouter, extraNetworks, extraRouters).Ok?
    ensures var st := Allocate(n, nw, p, pod, isRouter, extraNetworks, extraRouters).value;
      && IsAllocated(st, p)
      && (IsRouter(st, p) <==> isRouter)
      && (forall k :: IsOptionalRouter(st, k, p) <==> k in extraRouters)
      && SameForOtherPods(nw.status, st, p)
  {
    GrantFinds(n, nw, p, pod, extraNetworks);
    var st := Allocate(n, nw, p, pod, isRouter, extraNetworks, extraRouters).value;
    var a := Find(st.allocations, p).value;
    RouterEditEffect(nw.status.routers, a, isRouter);
    var m := nw.status.optionalRouters;
    forall k
      ensures IsOptionalRouter(st, k, p) <==> k in extraRouters
      ensures Without(Under(m, k), p) == Without(Under(st.optionalRouters, k), p)
    {
      RouterEditEffect(Under(m, k), a, k in Elements(extraRouters));
    }
  }

  lemma DeallocateEffect(st: Status, p: string)
    ensures Absent(Deallocate(st, p), p)
    ensures SameForOtherPods(st, Deallocate(st, p), p)
  {
    FindWithout(st.allocations, p, p);
    FindWithout(st.routers, p, p);
    WithoutTwice(st.allocations, p);
    WithoutTwice(st.routers, p);
    forall k
      ensures !IsOptionalRouter(Deallocate(st, p), k, p)
      ensures Without(Under(st.optionalRouters, k), p) == Without(Under(Deallocate(st, p).optionalRouters, k), p)
    {
      FindWithout(Under(st.optionalRouters, k), p, p);
      WithoutTwice(Under(st.optionalRouters, k), p);
    }
  }

  /** What an edit for one pod leaves true of every other pod. */
  lemma OthersUntouched(st: Status, st': Status, p: string, q: string)
    requires SameForOtherPods(st, st', p) && q != p
    ensures Find(st'.allocations, q) == Find(st.allocations, q)
    ensures Find(st'.routers, q) == Find(st.routers, q)
    ensures forall k :: Find(Under(st'.optionalRouters, k), q) == Find(Under(st.optionalRouters, k), q)
  {
    SameForOthers(st.allocations, st'.allocations, p, q);
    SameForOthers(st.routers, st'.routers, p, q);
    forall k ensures Find(Under(st'.optionalRouters, k), q) == Find(Under(st.optionalRouters, k), q) {
      SameForOthers(Under(st.optionalRouters, k), Under(st'.optionalRouters, k), p, q);
    }
  }

  // ---------- both edits keep the IPAM invariant ----------

  lemma AppendedList(l: seq<Allocation>, a: Allocation, c: Cidr)
    requires c.Valid() && AllocationList(l, c) && Find(l, a.podName).None?
    requires TextInNet(c, a.ip) && a.ip !in IPsOf(l)
    ensures AllocationList(l + [a], c)
  {
    hide TextInNet;
    assert forall i :: 0 <= i < |l| ==> l[i] in l && l[i].ip in IPsOf(l);
  }

  lemma RefreshedList(l: seq<Allocation>, i: nat, extraNetworks: seq<string>, c: Cidr)
    requires c.Valid() && AllocationList(l, c) && i < |l|
    ensures AllocationList(l[i := l[i].(extraNetworks := extraNetworks)], c)
  {
    hide TextInNet;
  }

  lemma AllocationsStaySound(n: string, nw: Network, p: string, pod: Pod, extraNetworks: seq<string>, c: Cidr)
    requires ParseCIDR(nw.spec.allocatableCIDR) == Some(c)
    requires AllocationList(nw.status.allocations, c)
    requires Grant(n, nw, p, pod, extraNetworks).Ok?
    ensures AllocationList(Grant(n, nw, p, pod, extraNetworks).value, c)
  {
    hide TextInNet, AllocationList, NewIP, ParseCIDR;
    var l := nw.status.allocations;
    var i := IndexOfPod(l, p);
    if i == |l| {
      NewIPIsFresh(n, nw, pod);
      AppendedList(l, Allocation(p, pod.podIP, NewIP(n, nw, pod).value, extraNetworks), c);
    } else {
      RefreshedList(l, i, extraNetworks, c);
    }
  }

  lemma AllocateKeepsSound(n: string, nw: Network, p: string, pod: Pod, isRouter: bool,
                           extraNetworks: seq<string>, extraRouters: seq<string>, c: Cidr)
    requires ParseCIDR(nw.spec.allocatableCIDR) == Some(c) && Sound(nw.status, c)
    requires Allocate(n, nw, p, pod, isRouter, extraNetworks, extraRouters).Ok?
    ensures Sound(Allocate(n, nw, p, pod, isRouter, extraNetworks, extraRouters).value, c)
  {
    hide AllocationList;
    var st := Allocate(n, nw, p, pod, isRouter, extraNetworks, extraRouters).value;
    GrantFinds(n, nw, p, pod, extraNetworks);
    AllocationsStaySound(n, nw, p, pod, extraNetworks, c);
    var a := Find(st.allocations, p).value;
    EditedRouterList(nw.status.routers, nw.status.allocations, st.allocations, a, isRouter);
    forall k | k in st.optionalRouters ensures RouterList(st.optionalRouters[k], st.allocations) {
      EditedRouterList(Under(nw.status.optionalRouters, k), nw.status.allocations, st.allocations, a,
                       k in Elements(extraRouters));
    }
  }

  lemma EditedRouterList(l: seq<Allocation>, before: seq<Allocation>, after: seq<Allocation>, a: Allocation,
                         isRouter: bool)
    requires RouterList(l, before)
    requires Without(after, a.podName) == Without(before, a.podName) && Find(after, a.podName) == Some(a)
    requires Find(before, a.podName).Some? ==> SameAddresses(a, Find(before, a.podName).value)
    ensures RouterList(RouterEdit(l, a, isRouter), after)
  {
    RouterEditEffect(l, a, isRouter);
    RouterListKept(l, RouterEdit(l, a, isRouter), before, after, a.podName);
  }

  lemma DeallocateKeepsSound(st: Status, p: string, c: Cidr)
    requires c.Valid() && Sound(st, c)
    ensures Sound(Deallocate(st, p), c)
  {
    var st' := Deallocate(st, p);
    DistinctWithout(st.allocations, p);
    DistinctIPsWithout(st.allocations, p);
    WithoutMembers(st.allocations, p);
    WithoutTwice(st.allocations, p);
    PrunedRouterList(st.routers, st.allocations, p);
    forall k | k in st'.optionalRouters ensures RouterList(st'.optionalRouters[k], st'.allocations) {
      PrunedRouterList(st.optionalRouters[k], st.allocations, p);
    }
  }

  lemma PrunedRouterList(l: seq<Allocation>, allocations: seq<Allocation>, p: string)
    requires RouterList(l, allocations)
    ensures RouterList(Without(l, p), Without(allocations, p))
  {
    WithoutMembers(l, p);
    DistinctWithout(l, p);
    WithoutTwice(allocations, p);
    RouterListKept(l, Without(l, p), allocations, Without(allocations, p), p);
  }

  // ---------- repeating and undoing ----------

  lemma RouterEditTwice(l: seq<Allocation>, a: Allocation, isRouter: bool)
    ensures RouterEdit(RouterEdit(l, a, isRouter), a, isRouter) == RouterEdit(l, a, isRouter)
  {
    RouterEditEffect(l, a, isRouter);
    WithoutTwice(l, a.podName);
  }

  lemma GrantTwice(n: string, nw: Network, p: string, pod: Pod, extraNetworks: seq<string>, st: Status)
    requires Grant(n, nw, p, pod, extraNetworks) == Ok(st.allocations)
    ensures Grant(n, nw.(status := st), p, pod, extraNetworks) == Ok(st.allocations)
  {
    hide NewIP, Without;
    GrantFinds(n, nw, p, pod, extraNetworks);
    var l := st.allocations;
    var i := IndexOfPod(l, p);
    assert l[i := l[i].(extraNetworks := extraNetworks)] == l;
  }

  /** Repeating allocateIP on its own result changes nothing. */
  lemma AllocateIdempotent(n: string, nw: Network, p: string, pod: Pod, isRouter: bool,
                           extraNetworks: seq<string>, extraRouters: seq<string>)
    requires Allocate(n, nw, p, pod, isRouter, extraNetworks, extraRouters).Ok?
    ensures var r := Allocate(n, nw, p, pod, isRouter, extraNetworks, extraRouters);
      Allocate(n, nw.(status := r.value), p, pod, isRouter, extraNetworks, extraRouters) == r
  {
    hide Grant, Find, RouterEdit, OptionalEdit;
    var st := Allocate(n, nw, p, pod, isRouter, extraNetworks, extraRouters).value;
    GrantFinds(n, nw, p, pod, extraNetworks);
    GrantTwice(n, nw, p, pod, extraNetworks, st);
    var a := Find(st.allocations, p).value;
    RouterEditTwice(nw.status.routers, a, isRouter);
    OptionalEditTwice(nw.status.optionalRouters, a, Elements(extraRouters));
  }

  lemma OptionalEditTwice(m: map<string, seq<Allocation>>, a: Allocation, wanted: set<string>)
    ensures OptionalEdit(OptionalEdit(m, a, wanted), a, wanted) == OptionalEdit(m, a, wanted)
  {
    var m' := OptionalEdit(m, a, wanted);
    forall k | k in m' ensures RouterEdit(m'[k], a, k in wanted) == m'[k] {
      RouterEditTwice(Under(m, k), a, k in wanted);
    }
  }

  /**
   deallocateIP undoes allocateIP for a pod that was in no collection: both lists come back
   exactly, the optional routers up to keys with empty lists, and any pod would now be
   offered the address it would have been offered before.
   */
  lemma DeallocateUndoesAllocate(n: string, nw: Network, p: string, pod: Pod, isRouter: bool,
                                 extraNetworks: seq<string>, extraRouters: seq<string>)
    requires Absent(nw.status, p)
    requires Allocate(n, nw, p, pod, isRouter, extraNetworks, extraRouters).Ok?
    ensures var st := Deallocate(Allocate(n, nw, p, pod, isRouter, extraNetworks, extraRouters).value, p);
      && st.allocations == nw.status.allocations
      && st.routers == nw.status.routers
      && (forall k :: Under(st.optionalRouters, k) == Under(nw.status.optionalRouters, k))
      && forall other :: NewIP(n, nw.(status := st), other) == NewIP(n, nw, other)
  {
    hide NewIP;
    AllocateEffect(n, nw, p, pod, isRouter, extraNetworks, extraRouters);
    var st := Allocate(n, nw, p, pod, isRouter, extraNetworks, extraRouters).value;
    WithoutNothing(nw.status.allocations, p);
    WithoutNothing(nw.status.routers, p);
    forall k ensures Under(Deallocate(st, p).optionalRouters, k) == Under(nw.status.optionalRouters, k) {
      assert !IsOptionalRouter(nw.status, k, p);
      WithoutNothing(Under(nw.status.optionalRouters, k), p);
    }
    forall other ensures NewIP(n, nw.(status := Deallocate(st, p)), other) == NewIP(n, nw, other) {
      NewIPDependsOnAllocations(n, nw, Deallocate(st, p), other);
    }
  }

  lemma NewIPDependsOnAllocations(n: string, nw: Network, st: Status, pod: Pod)
    requires st.allocations == nw.status.allocations
    ensures NewIP(n, nw.(status := st), pod) == NewIP(n, nw, pod)
  {
  }

  // ---------- the two loops over the optional routers ----------

  function AddUnder(m: map<string, seq<Allocation>>, a: Allocation, keys: set<string>): map<string, seq<Allocation>> {
    map k | k in m.Keys + keys :: if k in keys then Ensure(Under(m, k), a) else m[k]
  }

  function Pruned(l: seq<Allocation>, p: string, keep: bool): seq<Allocation> {
    if keep then l else Without(l, p)
  }

  function PruneOthers(m: map<string, seq<Allocation>>, p: string, keep: set<string>): map<string, seq<Allocation>> {
    map k | k in m :: Pruned(m[k], p, k in keep)
  }

  lemma AddUnderNothing(m: map<string, seq<Allocation>>, a: Allocation)
    ensures AddUnder(m, a, {}) == m
  {
  }

  lemma AddUnderOneMore(m: map<string, seq<Allocation>>, a: Allocation, keys: set<string>, k: string)
    ensures var m' := AddUnder(m, a, keys);
      AddUnder(m, a, keys + {k})
      == if Find(Under(m', k), a.podName).Some? then m' else m'[k := Under(m', k) + [a]]
  {
    hide Find, Ensure;
    var m' := AddUnder(m, a, keys);
    EnsureCases(Under(m, k), a);
    if k in keys {
      assert keys + {k} == keys;
    } else {
      AddNewKey(m, a, keys, k);
      assert Under(m', k) == Under(m, k);
      assert Find([], a.podName).None? by { EnsureCases([], a); }
      if Find(Under(m, k), a.podName).Some? {
        assert k in m;
        assert m'[k := m[k]] == m';
      }
    }
  }

  lemma EnsureCases(l: seq<Allocation>, a: Allocation)
    ensures Ensure(l, a) == if Find(l, a.podName).Some? then l else l + [a]
    ensures Find(Ensure(l, a), a.podName).Some?
    ensures l == [] ==> Find(l, a.podName).None?
  {
    FindEnsure(l, a);
  }

  lemma AddNewKey(m: map<string, seq<Allocation>>, a: Allocation, keys: set<string>, k: string)
    requires k !in keys
    ensures AddUnder(m, a, keys + {k}) == AddUnder(m, a, keys)[k := Ensure(Under(m, k), a)]
  {
    hide Find, Ensure;
  }

  lemma AddThenPrune(m: map<string, seq<Allocation>>, a: Allocation, keys: set<string>)
    ensures PruneOthers(AddUnder(m, a, keys), a.podName, keys) == OptionalEdit(m, a, keys)
  {
  }

  // ---------- the edits in place ----------

  /** The OverlayNetwork struct the reconciler holds in memory; only its status is edited. */
  class NetworkObject {
    const name: string
    const stored: Network
    var allocations: seq<Allocation>
    var routers: seq<Allocation>
    var optionalRouters: map<string, seq<Allocation>>

    constructor (name: string, nw: Network)
      ensures this.name == name && stored == nw && CurrentStatus() == nw.status
    {
      this.name := name;
      stored := nw;
      allocations := nw.status.allocations;
      routers := nw.status.routers;
      optionalRouters := nw.status.optionalRouters;
    }

    function CurrentStatus(): Status
      reads this
    {
      Status(allocations, routers, optionalRouters)
    }

    /** The object as it would be sent to the API server. */
    function Object(): Network
      reads this
    {
      stored.(status := CurrentStatus())
    }

    /** allocateIP up to its status update. */
    method AllocateIP(p: string, pod: Pod, isRouter: bool, extraNetworks: seq<string>, extraRouters: seq<string>)
      returns (err: Option<IpamError>)
      modifies this
      ensures match Allocate(name, old(Object()), p, pod, isRouter, extraNetworks, extraRouters)
        case Ok(st) => err == None && CurrentStatus() == st
        case Err(e) => err == Some(e) && CurrentStatus() == old(CurrentStatus())
    {
      if pod.podIP == "" {
        return Some(NoPodIP);
      }
      var allocation: Allocation;
      var i := IndexOfPod(allocations, p);
      if i == |allocations| {
        if stored.deleting {
          return Some(NetworkDeleting);
        }
        var ip := PickNewIP(pod);
        if ip.Err? {
          return Some(ip.error);
        }
        allocation := Allocation(p, pod.podIP, ip.value, extraNetworks);
        FindAppend(allocations, allocation, p);
        allocations := allocations + [allocation];
      } else {
        allocation := allocations[i].(extraNetworks := extraNetworks);
        FindUpdate(allocations, i, allocation);
        allocations := allocations[i := allocation];
      }
      assert Grant(name, old(Object()), p, pod, extraNetworks) == Ok(allocations);
      assert Find(allocations, p) == Some(allocation);
      RecordRouter(allocation, isRouter, extraRouters);
      return None;
    }

    /** The second half of allocateIP: the optional routers, then the routers. */
    method RecordRouter(a: Allocation, isRouter: bool, extraRouters: seq<string>)
      modifies this`routers, this`optionalRouters
      ensures routers == RouterEdit(old(routers), a, isRouter)
      ensures optionalRouters == OptionalEdit(old(optionalRouters), a, Elements(extraRouters))
    {
      AddThenPrune(optionalRouters, a, Elements(extraRouters));
      AddToOptionalRouters(a, extraRouters);
      RemoveFromOtherRouters(a.podName, extraRouters);
      if isRouter {
        if Find(routers, a.podName).None? {
          routers := routers + [a];
        }
      } else {
        routers := Without(routers, a.podName);
      }
    }

    /** The address choice of allocateIP: build the map of taken addresses, check the request, scan. */
    method PickNewIP(pod: Pod) returns (r: Result<string, IpamError>)
      ensures r == NewIP(name, Object(), pod)
    {
      var allocationMap: map<string, bool> := map[];
      for i := 0 to |allocations|
        invariant Used(allocationMap) == IPsOf(allocations[..i])
      {
        ghost var before := allocationMap;
        allocationMap := allocationMap[allocations[i].ip := true];
        assert allocations[..i + 1] == allocations[..i] + [allocations[i]];
        assert IPsOf(allocations[..i + 1]) == IPsOf(allocations[..i]) + {allocations[i].ip};
        assert Used(allocationMap) == Used(before) + {allocations[i].ip};
      }
      assert allocations[..|allocations|] == allocations;
      var request := RequestFor(pod, name);
      var cidr := ParseCIDR(stored.spec.allocatableCIDR);
      if cidr.None? {
        return Err(Pick(InvalidCIDR));
      }
      if request.NotIPv4? || (request.IPv4? && !InNet(cidr.value, request.value)) {
        return Err(OutsideCIDR);
      }
      LastInSpace(cidr.value);
      var text := if request.IPv4? then Some(Text(request.value)) else None;
      var pick := FirstFreeHost(stored.spec.allocatableCIDR, allocationMap, text);
      r := if pick.Ok? then Ok(pick.value) else Err(Pick(pick.error));
    }

    method AddToOptionalRouters(a: Allocation, extraRouters: seq<string>)
      modifies this`optionalRouters
      ensures optionalRouters == AddUnder(old(optionalRouters), a, Elements(extraRouters))
    {
      ghost var before := optionalRouters;
      AddUnderNothing(before, a);
      for i := 0 to |extraRouters|
        invariant optionalRouters == AddUnder(before, a, Elements(extraRouters[..i]))
      {
        var k := extraRouters[i];
        AddUnderOneMore(before, a, Elements(extraRouters[..i]), k);
        assert Elements(extraRouters[..i + 1]) == Elements(extraRouters[..i]) + {k};
        if Find(Under(optionalRouters, k), a.podName).None? {
          optionalRouters := optionalRouters[k := Under(optionalRouters, k) + [a]];
        }
      }
      assert extraRouters[..|extraRouters|] == extraRouters;
    }

    /** The loop over the keys of the map, in any order. */
    method RemoveFromOtherRouters(p: string, extraRouters: seq<string>)
      modifies this`optionalRouters
      ensures optionalRouters == PruneOthers(old(optionalRouters), p, Elements(extraRouters))
    {
      ghost var before := optionalRouters;
      var todo := optionalRouters.Keys;
      while todo != {}
        invariant todo <= optionalRouters.Keys == before.Keys
        invariant forall k :: k in before ==> optionalRouters[k] == Pruned(before[k], p, k in todo || k in extraRouters)
      {
        var k :| k in todo;
        todo := todo - {k};
        if k !in extraRouters {
          optionalRouters := optionalRouters[k := Without(optionalRouters[k], p)];
        }
      }
    }

    /** deallocateIP up to its status update. */
    method DeallocateIP(p: string)
      modifies this
      ensures CurrentStatus() == Deallocate(old(CurrentStatus()), p)
    {
      allocations := Without(allocations, p);
      routers := Without(routers, p);
      RemoveFromOtherRouters(p, []);
      assert optionalRouters == map k | k in old(optionalRouters) :: Without(old(optionalRouters)[k], p);
    }
  }
}
