/** The API objects: overlay networks with their IPAM status, and the pods that join them. */
module Api {

  const POD_FINALIZER := "network.deinstapel.de/ipam"
  const NETWORK_FINALIZER := "network.deinstapel.de/network-in-use"
  const INJECT_LABEL := "network.deinstapel.de/inject-sidecar"

  /** One address of a network and the pod it belongs to. */
  datatype Allocation = Allocation(podName: string, podIP: string, ip: string, extraNetworks: seq<string>)

  datatype Status = Status(
    allocations: seq<Allocation>,
    routers: seq<Allocation>,
    optionalRouters: map<string, seq<Allocation>>)

  datatype ExtraRoute = ExtraRoute(name: string, routableCIDRs: seq<string>)

  datatype Spec = Spec(
    allocatableCIDR: string,
    port: int,
    routableCIDRs: seq<string>,
    optionalRoutes: seq<ExtraRoute>,
    serviceNames: seq<string>)

  /** The uid tells objects of one name apart; the version changes with every write. */
  datatype Network = Network(
    uid: nat,
    version: nat,
    deleting: bool,
    finalizers: set<string>,
    spec: Spec,
    status: Status)

  /** One part of an annotation in the format overlay/item. */
  datatype Scoped<T> = Scoped(network: string, item: T)

  /** What net.ParseIP makes of the address part of an IP request. */
  datatype Requested = Unparsable | NotIPv4 | IPv4(value: nat)

  /** The annotations of a pod, split at their commas; empty parts are already dropped. */
  datatype Annotations = Annotations(
    memberOf: seq<string>,
    routerFor: seq<string>,
    extraRouters: seq<Scoped<string>>,
    extraRoutes: seq<Scoped<string>>,
    requests: seq<Scoped<Requested>>)

  datatype Pod = Pod(
    version: nat,
    deleting: bool,
    finalizers: set<string>,
    labels: map<string, string>,
    annotations: Annotations,
    podIP: string)
  {
    predicate Injected() {
      INJECT_LABEL in labels && labels[INJECT_LABEL] == "true"
    }
  }

  const EMPTY_STATUS := Status([], [], map[])

  /** The items of one network, in order. */
  function ItemsFor<T>(parts: seq<Scoped<T>>, network: string): seq<T> {
    if parts == [] then []
    else (if parts[0].network == network then [parts[0].item] else []) + ItemsFor(parts[1..], network)
  }

  ghost predicate Ascending(at: seq<nat>) {
    forall i, j :: 0 <= i < j < |at| ==> at[i] < at[j]
  }

  /** Each place holds a part of the network with the item. */
  ghost predicate Hold<T>(at: seq<nat>, items: seq<T>, parts: seq<Scoped<T>>, network: string) {
    |at| == |items| && forall j :: 0 <= j < |at| ==> at[j] < |parts| && parts[at[j]] == Scoped(network, items[j])
  }

  /** Every part of the network is at one of the places. */
  ghost predicate Complete<T>(at: seq<nat>, parts: seq<Scoped<T>>, network: string) {
    forall k :: 0 <= k < |parts| && parts[k].network == network ==> k in at
  }

  /** The places of the parts of one network, in ascending order, hold the items. */
  ghost predicate ItemsAt<T>(at: seq<nat>, items: seq<T>, parts: seq<Scoped<T>>, network: string) {
    Ascending(at) && Hold(at, items, parts, network) && Complete(at, parts, network)
  }

  /** The items are those that the annotation has for the network, in its order. */
  ghost predicate InOrder<T>(items: seq<T>, parts: seq<Scoped<T>>, network: string) {
    exists at :: ItemsAt(at, items, parts, network)
  }

  function Shifted(at: seq<nat>): (moved: seq<nat>)
    ensures |moved| == |at| && forall i :: 0 <= i < |at| ==> moved[i] == at[i] + 1
  {
    if at == [] then [] else [at[0] + 1] + Shifted(at[1..])
  }

  lemma ShiftedComplete<T>(at: seq<nat>, parts: seq<Scoped<T>>, network: string, k: nat)
    requires 0 < k < |parts| && parts[k].network == network && Complete(at, parts[1..], network)
    ensures k in Shifted(at)
  {
    hide Shifted;
    assert parts[1..][k - 1] == parts[k];
    var j :| 0 <= j < |at| && at[j] == k - 1;
    assert Shifted(at)[j] == k;
  }

  lemma ShiftedHold<T>(at: seq<nat>, items: seq<T>, parts: seq<Scoped<T>>, network: string)
    requires parts != [] && Hold(at, items, parts[1..], network)
    ensures Hold(Shifted(at), items, parts, network)
  {
    hide Shifted;
    forall j | 0 <= j < |at| ensures Shifted(at)[j] < |parts| && parts[Shifted(at)[j]] == Scoped(network, items[j]) {
      assert parts[1..][at[j]] == parts[at[j] + 1];
    }
  }

  lemma ShiftedAscending(at: seq<nat>)
    requires Ascending(at)
    ensures Ascending(Shifted(at)) && Ascending([0] + Shifted(at))
  {
    hide Shifted;
  }

  /** A part of another network in front moves the places by one. */
  lemma SkipPart<T>(at: seq<nat>, items: seq<T>, parts: seq<Scoped<T>>, network: string)
    requires parts != [] && parts[0].network != network && ItemsAt(at, items, parts[1..], network)
    ensures ItemsAt(Shifted(at), items, parts, network)
  {
    hide Shifted, Hold, Ascending;
    ShiftedAscending(at);
    ShiftedHold(at, items, parts, network);
    forall k | 0 <= k < |parts| && parts[k].network == network ensures k in Shifted(at) {
      ShiftedComplete(at, parts, network, k);
    }
  }

  /** A part of the network in front is the first place. */
  lemma TakePart<T>(at: seq<nat>, items: seq<T>, parts: seq<Scoped<T>>, network: string)
    requires parts != [] && parts[0].network == network && ItemsAt(at, items, parts[1..], network)
    ensures ItemsAt([0] + Shifted(at), [parts[0].item] + items, parts, network)
  {
    hide Shifted, Hold, Ascending, Complete;
    ShiftedAscending(at);
    ShiftedHold(at, items, parts, network);
    TakenHold(Shifted(at), items, parts, network);
    TakenComplete(at, parts, network);
  }

  lemma TakenHold<T>(at: seq<nat>, items: seq<T>, parts: seq<Scoped<T>>, network: string)
    requires parts != [] && parts[0].network == network && Hold(at, items, parts, network)
    ensures Hold([0] + at, [parts[0].item] + items, parts, network)
  {
  }

  lemma TakenComplete<T>(at: seq<nat>, parts: seq<Scoped<T>>, network: string)
    requires parts != [] && Complete(at, parts[1..], network)
    ensures Complete([0] + Shifted(at), parts, network)
  {
    hide Shifted;
    forall k | 0 <= k < |parts| && parts[k].network == network ensures k in [0] + Shifted(at) {
      if k > 0 {
        ShiftedComplete(at, parts, network, k);
      } else {
        assert ([0] + Shifted(at))[0] == 0;
      }
    }
  }

  lemma {:induction false} ItemsForInOrder<T>(parts: seq<Scoped<T>>, network: string) returns (at: seq<nat>)
    ensures ItemsAt(at, ItemsFor(parts, network), parts, network)
  {
    at := [];
    if parts != [] {
      hide ItemsAt, Shifted;
      var rest := ItemsForInOrder(parts[1..], network);
      if parts[0].network == network {
        TakePart(rest, ItemsFor(parts[1..], network), parts, network);
        at := [0] + Shifted(rest);
      } else {
        SkipPart(rest, ItemsFor(parts[1..], network), parts, network);
        at := Shifted(rest);
        assert [] + ItemsFor(parts[1..], network) == ItemsFor(parts[1..], network);
      }
    }
  }

  /** The items of a network are exactly what its parts of the annotation hold. */
  lemma ItemsForExactly<T>(parts: seq<Scoped<T>>, network: string)
    ensures InOrder(ItemsFor(parts, network), parts, network)
    ensures forall x :: x in ItemsFor(parts, network) <==> Scoped(network, x) in parts
  {
    var items := ItemsFor(parts, network);
    var at := ItemsForInOrder(parts, network);
    forall x | Scoped(network, x) in parts ensures x in items {
      var k :| 0 <= k < |parts| && parts[k] == Scoped(network, x);
      var j :| 0 <= j < |at| && at[j] == k;
      assert items[j] == x;
    }
  }
}
