/** What one pass of the network controller makes of a network, and that protection and release are always possible. */
module Protection {
  import opened Api
  import opened Validating
  import opened Cluster
  import opened Invariant
  import opened Steps
  import opened Preservation
  import opened Runs

  /** Only the finalizers differ, and the version. */
  ghost predicate Rewritten(nw: Network, nw': Network, finalizers: set<string>) {
    nw' == nw.(finalizers := finalizers, version := nw'.version)
  }

  /**
   The new store after a pass over the network as it is stored: a live network has the finalizer, a
   deleting one without allocations has lost it and is gone if it has no other; nothing else changes.
   */
  ghost predicate PassResult(c: Store, c': Store, n: string)
    requires n in c.networks
  {
    var nw := c.networks[n];
    && c'.pods == c.pods
    && (forall m :: m != n ==> (m in c.networks <==> m in c'.networks))
    && (forall m :: m != n && m in c'.networks ==> c'.networks[m] == c.networks[m])
    && (!nw.deleting ==>
          && n in c'.networks
          && Rewritten(nw, c'.networks[n], nw.finalizers + {NETWORK_FINALIZER}))
    && (nw.deleting && nw.status.allocations == [] && nw.finalizers == {NETWORK_FINALIZER} ==> n !in c'.networks)
    && (nw.deleting && nw.status.allocations == [] && NETWORK_FINALIZER in nw.finalizers
        && nw.finalizers != {NETWORK_FINALIZER} ==>
          && n in c'.networks
          && Rewritten(nw, c'.networks[n], nw.finalizers - {NETWORK_FINALIZER}))
    && (nw.deleting && (nw.status.allocations != [] || NETWORK_FINALIZER !in nw.finalizers) ==>
          n in c'.networks && c'.networks[n] == nw)
  }

  lemma LivePass(c: Store, n: string, fault: Fault)
    requires n in c.networks && ValidSpec(c.networks[n].spec) && !c.networks[n].deleting && !fault.RequestLost?
    ensures PassResult(c, NetworkControl(c, n, c.networks[n], fault), n)
  {
    hide Handle, ValidSpec, RoutablesParse;
    var nw := c.networks[n];
    AcceptsItself(nw.spec);
    if NETWORK_FINALIZER in nw.finalizers { assert nw.finalizers + {NETWORK_FINALIZER} == nw.finalizers; }
  }

  lemma DeletingPass(c: Store, n: string, fault: Fault)
    requires n in c.networks && ValidSpec(c.networks[n].spec) && c.networks[n].deleting && !fault.RequestLost?
    ensures PassResult(c, NetworkControl(c, n, c.networks[n], fault), n)
  {
    hide Handle, ValidSpec, RoutablesParse;
    var nw := c.networks[n];
    AcceptsItself(nw.spec);
    assert nw.finalizers == {NETWORK_FINALIZER} <==>
      NETWORK_FINALIZER in nw.finalizers && nw.finalizers - {NETWORK_FINALIZER} == {};
  }

  lemma AcceptsItself(spec: Spec)
    requires ValidSpec(spec)
    ensures Handle(Update(spec, spec)) == Allowed
  {
    hide Handle;
    HandleExact(Update(spec, spec));
  }

  /** A pass has its effect exactly if its request arrives and the snapshot has the stored version. */
  lemma NetworkPassExactly(s: State, n: string, at: nat, fault: Fault)
    requires Shape(s) && NetworksStable(s) && SpecsValid(Now(s)) && Enabled(s, NetworkPass(n, at, fault))
    ensures var c' := Next(s, NetworkPass(n, at, fault));
      if !fault.RequestLost? && SameNetworkVersion(s, at, n) then PassResult(Now(s), c', n) else c' == Now(s)
  {
    hide NetworksStable, Handle, PutNetwork, PassResult, ValidSpec, RoutablesParse;
    if SameNetworkVersion(s, at, n) && !fault.RequestLost? {
      SnapshotIsCurrent(s, at, n);
      if Now(s).networks[n].deleting { DeletingPass(Now(s), n, fault); } else { LivePass(Now(s), n, fault); }
    } else if fault.RequestLost? {
    } else {
      StaleIsRefused(Now(s), n, s.hist[at].networks[n], fault);
    }
  }

  lemma StaleIsRefused(c: Store, n: string, nw: Network, fault: Fault)
    requires n in c.networks ==> c.networks[n].version != nw.version
    ensures NetworkControl(c, n, nw, fault) == c
  {
    hide Handle, PutNetwork;
  }

  // ---------- along a run ----------

  /** The pass over the newest snapshot. */
  lemma PassNow(states: seq<State>, events: seq<Event>, n: string) returns (states': seq<State>, events': seq<Event>)
    requires Run(states, events) && n in Latest(states, |events|).networks
    ensures Continues(states, events, states', events') && |events'| == |events| + 1
    ensures PassResult(Latest(states', |events|), Latest(states', |events'|), n)
    ensures Latest(states', |events|) == Latest(states, |events|)
  {
    hide Run, Shape, Enabled, Apply, NetworksStable, SpecsValid, Inv, HistoryInv, PassResult, SameNetworkVersion,
      Latest, Next;
    LastSnapshot(states, events);
    var s := states[|events|];
    var at, e := |s.hist| - 1, NetworkPass(n, |s.hist| - 1, NoFault);
    NewestEnabled(s, n);
    NetworkPassExactly(s, n, at, NoFault);
    NextOfRun(states, events, e);
    states', events' := states + [Apply(s, e)], events + [e];
    assert states'[|events|] == s;
    LatestIsNow(states', |events|);
  }

  lemma LastSnapshot(states: seq<State>, events: seq<Event>)
    requires Run(states, events)
    ensures |states| == |events| + 1
    ensures var s := states[|events|];
      Shape(s) && s.hist != [] && Latest(states, |events|) == Now(s) && NetworksStable(s) && SpecsValid(Now(s))
  {
    hide Run, Shape, NetworksStable, SpecsValid, Inv;
    RunLengths(states, events);
    RunInv(states, events, |events|);
    NewestSnapshot(states[|events|]);
    LatestIsNow(states, |events|);
  }

  lemma NewestSnapshot(s: State)
    requires Inv(s)
    ensures Shape(s) && NetworksStable(s) && SpecsValid(Now(s))
  {
    hide HistoryInv, NetworksStable, SpecsValid, PodsSeen, NetworksSeen, WorkersKnow;
    ShapeOf(s);
    SpecsAreValid(s);
  }

  lemma NewestEnabled(s: State, n: string)
    requires Shape(s) && n in Now(s).networks
    ensures Enabled(s, NetworkPass(n, |s.hist| - 1, NoFault)) && SameNetworkVersion(s, |s.hist| - 1, n)
  {
  }

  /** From every reached state a live network without its finalizer can get it in one step. */
  lemma ProtectionPossible(states: seq<State>, events: seq<Event>, n: string)
    returns (states': seq<State>, events': seq<Event>)
    requires Run(states, events) && n in Latest(states, |events|).networks
    requires !Latest(states, |events|).networks[n].deleting
    ensures Continues(states, events, states', events') && |events'| == |events| + 1
    ensures SameObject(states', |events|, |events'|, n)
    ensures NETWORK_FINALIZER in Latest(states', |events'|).networks[n].finalizers
  {
    hide Run;
    states', events' := PassNow(states, events, n);
    RunLengths(states', events');
  }

  /** From every reached state a deleting, empty network that has only this finalizer can go in one step. */
  lemma ReleasePossible(states: seq<State>, events: seq<Event>, n: string)
    returns (states': seq<State>, events': seq<Event>)
    requires Run(states, events) && n in Latest(states, |events|).networks
    requires var nw := Latest(states, |events|).networks[n];
      nw.deleting && nw.status.allocations == [] && nw.finalizers == {NETWORK_FINALIZER}
    ensures Continues(states, events, states', events') && |events'| == |events| + 1
    ensures |states'| == |events'| + 1 && n !in Latest(states', |events'|).networks
  {
    hide Run;
    states', events' := PassNow(states, events, n);
    RunLengths(states', events');
  }
}
