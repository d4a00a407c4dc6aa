/** A run in which a network is lost: pods join it before the controller has protected it. */
module Race {
  import opened Wrappers
  import opened Addresses
  import opened PickIP
  import opened Api
  import opened Allocations
  import opened Ipam
  import opened Validating
  import opened Cluster
  import opened Runs

  function SpecOf(c: Cidr): Spec
    requires c.Valid()
  {
    Spec(CidrText(c), 4242, [], [], [])
  }

  const MEMBER := Pod(1, false, {POD_FINALIZER}, map[INJECT_LABEL := "true"],
                      Annotations(["net"], [], [], [], []), "10.1.0.7")

  lemma SpecAccepted(c: Cidr)
    requires c.Valid()
    ensures Handle(Create(SpecOf(c))) == Allowed
  {
    hide ParseCIDR;
    CidrRoundTrip(c);
    HandleExact(Create(SpecOf(c)));
  }

  /** With room in the pool the first pod gets an address. */
  lemma FirstPodJoins(c: Cidr, nw: Network)
    requires c.Valid() && c.written < Last(c)
    requires nw.spec == SpecOf(c) && !nw.deleting && nw.status == EMPTY_STATUS
    ensures Edit("p", MEMBER, "net", nw).Ok? && Edit("p", MEMBER, "net", nw).value.allocations != []
  {
    hide ParseCIDR, CidrText;
    CidrRoundTrip(c);
    assert IPsOf([]) == {};
    PoolNotExhausted(c, {});
    MemberWants();
  }

  lemma MemberWants()
    ensures Wanted(MEMBER) == {"net"} && MEMBER.Injected()
  {
    assert "net" in Elements(["net"]);
  }

  lemma JoinStored(c: Store, nw: Network, st: Status)
    requires c.networks == map["net" := nw] && c.next == 2 && !nw.deleting && nw.status != st
    ensures UpdateStatus(c, "net", nw.(status := st))
      == (Store(c.pods, map["net" := nw.(status := st, version := 2)], 3), Accepted)
  {
    var nw' := nw.(status := st, version := 2);
    assert c.networks["net" := nw'] == map["net" := nw'];
  }

  /** The last event removes a network that still holds an allocation. */
  ghost predicate LosesAllocations(states: seq<State>, events: seq<Event>)
    requires Run(states, events)
  {
    var i := |events|;
    && i > 0 && "net" in Latest(states, i - 1).networks && "net" !in Latest(states, i).networks
    && Latest(states, i - 1).networks["net"].status.allocations != []
  }

  // The run: five stores, and the states that go through them.

  function Fresh(spec: Spec): Network {
    Network(0, 0, false, {}, spec, EMPTY_STATUS)
  }

  function Stores(spec: Spec, st: Status): seq<Store> {
    var pods := map["p" := MEMBER];
    [Store(map[], map[], 0),
     Store(map[], map["net" := Fresh(spec)], 1),
     Store(pods, map["net" := Fresh(spec)], 2),
     Store(pods, map["net" := Fresh(spec).(status := st, version := 2)], 3),
     Store(pods, map[], 4)]
  }

  function States(spec: Spec, st: Status): seq<State> {
    var h := Stores(spec, st);
    [State(h[..1], 0, 0, map[]),
     State(h[..2], 0, 0, map[]),
     State(h[..3], 0, 0, map[]),
     State(h[..3], 2, 0, map[]),
     State(h[..3], 2, 2, map[]),
     State(h[..3], 2, 2, map["p" := Loaded(2)]),
     State(h[..3], 2, 2, map["p" := Listed(2, 2, {"net"}, false, {})]),
     State(h[..4], 2, 2, map["p" := Listed(2, 2, {}, false, {"net"})]),
     State(h[..5], 2, 2, map["p" := Listed(2, 2, {}, false, {"net"})])]
  }

  function Events(spec: Spec): seq<Event> {
    [CreateNetwork("net", spec, {}), CreatePod("p", MEMBER), AdvancePods(2), AdvanceNetworks(2),
     ReadPod("p"), ListNetworks("p"), ProcessNetwork("p", "net", NoFault), DeleteNetwork("net")]
  }

  lemma Created(spec: Spec, st: Status)
    requires Handle(Create(spec)) == Allowed
    ensures forall i :: 0 <= i < 4 ==> Step(States(spec, st)[i], Events(spec)[i], States(spec, st)[i + 1])
  {
    hide Handle, Edit;
    var s, h := States(spec, st), Stores(spec, st);
    assert h[..2] == h[..1] + [h[1]] && h[..3] == h[..2] + [h[2]];
    assert Step(s[0], Events(spec)[0], s[1]);
    assert Step(s[1], Events(spec)[1], s[2]);
    assert Step(s[2], Events(spec)[2], s[3]);
    assert Step(s[3], Events(spec)[3], s[4]);
  }

  lemma ReadAndListed(spec: Spec, st: Status)
    ensures forall i :: 4 <= i < 6 ==> Step(States(spec, st)[i], Events(spec)[i], States(spec, st)[i + 1])
  {
    hide Handle, Edit;
    var s := States(spec, st);
    assert Stores(spec, st)[2].networks.Keys == {"net"};
    assert s[5].workers["p" := s[6].workers["p"]] == s[6].workers;
    assert Step(s[4], Events(spec)[4], s[5]);
    assert Step(s[5], Events(spec)[5], s[6]);
  }

  lemma Joined(spec: Spec, st: Status)
    requires Edit("p", MEMBER, "net", Fresh(spec)) == Ok(st) && st != EMPTY_STATUS
    ensures Step(States(spec, st)[6], Events(spec)[6], States(spec, st)[7])
  {
    hide Handle, Edit;
    var s, h := States(spec, st), Stores(spec, st);
    assert h[..4] == h[..3] + [h[3]];
    JoinStored(h[2], Fresh(spec), st);
    assert WriteBack(s[6], "p", "net", NoFault) == (h[3], false);
    MemberWants();
    assert {"net"} - {"net"} == {} && {} + {"net"} == {"net"};
    assert s[6].workers["p" := s[7].workers["p"]] == s[7].workers;
  }

  lemma Deleted(spec: Spec, st: Status)
    ensures Step(States(spec, st)[7], Events(spec)[7], States(spec, st)[8])
  {
    hide Handle, Edit;
    var h := Stores(spec, st);
    assert h[..5] == h[..4] + [h[4]];
    assert h[3].networks - {"net"} == map[];
  }

  /** Without the finalizer a network with an allocation can disappear, so DeletionIsSafe needs its premise. */
  lemma UnprotectedDeletionLosesAllocations(c: Cidr)
    requires c.Valid() && c.written < Last(c)
    ensures exists states, events :: Run(states, events) && LosesAllocations(states, events)
  {
    hide Handle, Edit, SpecOf, Step;
    SpecAccepted(c);
    var spec := SpecOf(c);
    FirstPodJoins(c, Fresh(spec));
    var st := Edit("p", MEMBER, "net", Fresh(spec)).value;
    Created(spec, st);
    ReadAndListed(spec, st);
    Joined(spec, st);
    Deleted(spec, st);
    assert Run(States(spec, st), Events(spec));
    assert LosesAllocations(States(spec, st), Events(spec));
  }
}
