/** Lists of allocations: searching by pod, removing a pod, and what the three status lists must satisfy. */
module Allocations {
  import opened Wrappers
  import opened Addresses
  import opened Api
  import PickIP

  // ---------- operations on one list ----------

  /** The first entry of the pod. */
  function Find(l: seq<Allocation>, p: string): (r: Option<Allocation>)
    ensures r.Some? ==> r.value in l && r.value.podName == p
    ensures r.None? ==> forall a :: a in l ==> a.podName != p
  {
    if l == [] then None
    else if l[0].podName == p then Some(l[0])
    else Find(l[1..], p)
  }

  /** The position of the first entry of the pod, or the length of the list. */
  function IndexOfPod(l: seq<Allocation>, p: string): (i: nat)
    ensures i <= |l|
    ensures i < |l| ==> l[i].podName == p && Find(l, p) == Some(l[i])
    ensures i == |l| <==> Find(l, p).None?
    ensures forall k :: 0 <= k < i ==> l[k].podName != p
  {
    if l == [] || l[0].podName == p then 0 else 1 + IndexOfPod(l[1..], p)
  }

  /** The list without the entries of the pod, in the same order. */
  function Without(l: seq<Allocation>, p: string): seq<Allocation> {
    if l == [] then []
    else
      var n := |l| - 1;
      Without(l[..n], p) + (if l[n].podName == p then [] else [l[n]])
  }

  /** The list with the entry appended unless its pod is in it. */
  function Ensure(l: seq<Allocation>, a: Allocation): seq<Allocation> {
    if Find(l, a.podName).Some? then l else l + [a]
  }

  function IPsOf(l: seq<Allocation>): set<string> {
    set a | a in l :: a.ip
  }

  /** The list under a key, empty when the key is missing. */
  function Under(m: map<string, seq<Allocation>>, k: string): seq<Allocation> {
    if k in m then m[k] else []
  }

  // ---------- how the operations interact ----------

  lemma {:induction false} WithoutMembers(l: seq<Allocation>, p: string)
    ensures forall a :: a in Without(l, p) <==> a in l && a.podName != p
  {
    if l != [] {
      var n := |l| - 1;
      assert l == l[..n] + [l[n]];
      WithoutMembers(l[..n], p);
    }
  }

  lemma WithoutAppend(l: seq<Allocation>, a: Allocation, p: string)
    ensures Without(l + [a], p) == Without(l, p) + (if a.podName == p then [] else [a])
  {
    assert (l + [a])[..|l|] == l;
  }

  lemma {:induction false} WithoutNothing(l: seq<Allocation>, p: string)
    requires Find(l, p).None?
    ensures Without(l, p) == l
  {
    if l != [] {
      var n := |l| - 1;
      assert l == l[..n] + [l[n]];
      assert Find(l[..n], p).None?;
      WithoutNothing(l[..n], p);
    }
  }

  lemma WithoutTwice(l: seq<Allocation>, p: string)
    ensures Without(Without(l, p), p) == Without(l, p)
  {
    WithoutMembers(l, p);
    WithoutNothing(Without(l, p), p);
  }

  lemma {:induction false} WithoutUpdate(l: seq<Allocation>, i: nat, a: Allocation, p: string)
    requires i < |l| && l[i].podName == p && a.podName == p
    ensures Without(l[i := a], p) == Without(l, p)
  {
    var n := |l| - 1;
    if i == n {
      assert l[i := a][..n] == l[..n];
    } else {
      assert l[i := a][..n] == l[..n][i := a];
      WithoutUpdate(l[..n], i, a, p);
    }
  }

  lemma {:induction false} FindAppend(l: seq<Allocation>, a: Allocation, q: string)
    ensures Find(l + [a], q) ==
      if Find(l, q).Some? then Find(l, q) else if a.podName == q then Some(a) else None
  {
    if l == [] {
      assert l + [a] == [a];
    } else {
      assert (l + [a])[1..] == l[1..] + [a];
      FindAppend(l[1..], a, q);
    }
  }

  /** Removing one pod changes no other pod's entry. */
  lemma {:induction false} FindWithout(l: seq<Allocation>, p: string, q: string)
    ensures Find(Without(l, p), q) == if q == p then None else Find(l, q)
  {
    if l != [] {
      var n := |l| - 1;
      FindWithout(l[..n], p, q);
      FindAppend(l[..n], l[n], q);
      assert l == l[..n] + [l[n]];
      FindAppend(Without(l[..n], p), l[n], q);
      assert Without(l, p) == if l[n].podName == p then Without(l[..n], p) else Without(l[..n], p) + [l[n]];
    }
  }

  /** Lists that agree after removing one pod agree on every other pod's entry. */
  lemma SameForOthers(l: seq<Allocation>, m: seq<Allocation>, p: string, q: string)
    requires Without(l, p) == Without(m, p) && q != p
    ensures Find(l, q) == Find(m, q)
  {
    FindWithout(l, p, q);
    FindWithout(m, p, q);
  }

  lemma {:induction false} FindUpdate(l: seq<Allocation>, i: nat, a: Allocation)
    requires i < |l| && i == IndexOfPod(l, a.podName)
    ensures Find(l[i := a], a.podName) == Some(a)
  {
    if i > 0 {
      assert l[i := a][1..] == l[1..][i - 1 := a];
      FindUpdate(l[1..], i - 1, a);
    }
  }

  lemma FindEnsure(l: seq<Allocation>, a: Allocation)
    ensures Find(Ensure(l, a), a.podName).Some?
    ensures Without(Ensure(l, a), a.podName) == Without(l, a.podName)
  {
    FindAppend(l, a, a.podName);
    WithoutAppend(l, a, a.podName);
  }

  // ---------- what a status must satisfy ----------

  ghost predicate DistinctPods(l: seq<Allocation>) {
    forall i, j :: 0 <= i < j < |l| ==> l[i].podName != l[j].podName
  }

  ghost predicate DistinctIPs(l: seq<Allocation>) {
    forall i, j :: 0 <= i < j < |l| ==> l[i].ip != l[j].ip
  }

  ghost predicate SameAddresses(a: Allocation, b: Allocation) {
    a.podName == b.podName && a.podIP == b.podIP && a.ip == b.ip
  }

  /** The entry names an allocated pod, with the addresses of its allocation. */
  ghost predicate Backed(e: Allocation, allocations: seq<Allocation>) {
    var f := Find(allocations, e.podName);
    f.Some? && SameAddresses(e, f.value)
  }

  ghost predicate RouterList(l: seq<Allocation>, allocations: seq<Allocation>) {
    DistinctPods(l) && forall e :: e in l ==> Backed(e, allocations)
  }

  ghost predicate AllocationList(l: seq<Allocation>, c: Cidr)
    requires c.Valid()
  {
    DistinctPods(l) && DistinctIPs(l) && forall a :: a in l ==> PickIP.TextInNet(c, a.ip)
  }

  /** The IPAM invariant of one network with the given pool. */
  ghost predicate Sound(st: Status, c: Cidr)
    requires c.Valid()
  {
    && AllocationList(st.allocations, c)
    && RouterList(st.routers, st.allocations)
    && forall k :: k in st.optionalRouters ==> RouterList(st.optionalRouters[k], st.allocations)
  }

  lemma {:induction false} DistinctWithout(l: seq<Allocation>, p: string)
    requires DistinctPods(l)
    ensures DistinctPods(Without(l, p))
  {
    if l != [] {
      var n := |l| - 1;
      DistinctWithout(l[..n], p);
      WithoutMembers(l[..n], p);
      var w := Without(l[..n], p);
      forall i | 0 <= i < |w| ensures w[i].podName != l[n].podName { assert w[i] in l[..n]; }
    }
  }

  lemma {:induction false} DistinctIPsWithout(l: seq<Allocation>, p: string)
    requires DistinctIPs(l)
    ensures DistinctIPs(Without(l, p))
  {
    if l != [] {
      var n := |l| - 1;
      DistinctIPsWithout(l[..n], p);
      WithoutMembers(l[..n], p);
      var w := Without(l[..n], p);
      forall i | 0 <= i < |w| ensures w[i].ip != l[n].ip { assert w[i] in l[..n]; }
    }
  }

  lemma DistinctEnsure(l: seq<Allocation>, a: Allocation)
    requires DistinctPods(l)
    ensures DistinctPods(Ensure(l, a))
  {
  }

  /** A router list stays one when the allocations change at one pod only, and that pod keeps its addresses. */
  lemma RouterListKept(l: seq<Allocation>, m: seq<Allocation>, before: seq<Allocation>, after: seq<Allocation>,
                       p: string)
    requires RouterList(l, before) && DistinctPods(m)
    requires Without(after, p) == Without(before, p)
    requires forall e :: e in m ==> e in l || e.podName == p
    requires forall e :: e in m && e.podName == p ==> Backed(e, after)
    ensures RouterList(m, after)
  {
    forall e | e in m ensures Backed(e, after) {
      if e.podName != p { SameForOthers(before, after, p, e.podName); }
    }
  }

  /** Each pod in a list with distinct pods is found at its own entry. */
  lemma {:induction false} FindUnique(l: seq<Allocation>, a: Allocation)
    requires DistinctPods(l) && a in l
    ensures Find(l, a.podName) == Some(a)
  {
    if l[0] != a {
      assert a in l[1..];
      FindUnique(l[1..], a);
      assert exists j :: 0 < j < |l| && l[j] == a;
    }
  }
}
