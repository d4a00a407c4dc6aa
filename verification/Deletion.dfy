/** Exactly which networks can be lost: removed while pods still hold addresses in them. */
module Deletion {
  import opened Api
  import opened Ipam
  import opened Validating
  import opened Cluster
  import opened Invariant
  import opened Steps
  import opened Preservation
  import opened Runs

  // ---------- what it means to be lost ----------

  /** At step j the network object of place i disappears from a store in which it still holds allocations. */
  ghost predicate LostAt(states: seq<State>, i: nat, j: nat, n: string)
    requires i < |states| && j + 1 < |states|
  {
    && SameObject(states, i, j, n) && !SameObject(states, i, j + 1, n)
    && Latest(states, j).networks[n].status.allocations != []
  }

  ghost predicate LostFrom(states: seq<State>, i: nat, n: string)
    requires i < |states|
  {
    exists j :: i <= j < |states| - 1 && LostAt(states, i, j, n)
  }

  /** Some continuation of the run loses the network. */
  ghost predicate CanBeLost(states: seq<State>, events: seq<Event>, n: string)
    requires Run(states, events)
  {
    exists states', events' :: Continues(states, events, states', events') && LostFrom(states', |events|, n)
  }

  // ---------- a protected network is never lost ----------

  /** The network has its finalizer, or it is deleting and already empty. */
  ghost predicate Guarded(nw: Network) {
    NETWORK_FINALIZER in nw.finalizers || (nw.deleting && nw.status.allocations == [])
  }

  lemma StepGuarded(states: seq<State>, events: seq<Event>, i: nat, n: string)
    requires Run(states, events) && i < |events| && SameObject(states, i, i + 1, n)
    requires Guarded(Latest(states, i).networks[n])
    ensures Guarded(Latest(states, i + 1).networks[n])
  {
    hide Edit, Inv, Apply, Enabled, PodFates, ValidSpec, FinalizerRule, IsAllocated;
    RunStep(states, events, i);
    var nw := Latest(states, i).networks[n];
    assert NetworkFate(states[i], events[i], Latest(states, i + 1), n);
    if nw.deleting && nw.status.allocations == [] {
      StepDrains(states, events, i, n);
      EmptyHoldsNobody(nw.status);
      EmptyHoldsNobody(Latest(states, i + 1).networks[n].status);
    }
  }

  /** As long as it exists, a network that was protected once stays guarded. */
  lemma {:induction false} StaysGuarded(states: seq<State>, events: seq<Event>, i: nat, k: nat, n: string)
    requires Run(states, events) && i <= k < |states| && SameObject(states, i, k, n)
    requires Guarded(Latest(states, i).networks[n])
    ensures Guarded(Latest(states, k).networks[n])
  {
    hide Run, Guarded;
    RunLengths(states, events);
    if i < k {
      GoneForGood(states, events, i, k - 1, n);
      StaysGuarded(states, events, i, k - 1, n);
      StepGuarded(states, events, k - 1, n);
    }
  }

  /** Whatever happens after a network has got its finalizer, it disappears only when it is empty. */
  lemma ProtectedNeverLost(states: seq<State>, events: seq<Event>, i: nat, n: string)
    requires Run(states, events) && i < |states| && n in Latest(states, i).networks
    requires NETWORK_FINALIZER in Latest(states, i).networks[n].finalizers
    ensures !LostFrom(states, i, n)
  {
    hide Run;
    RunLengths(states, events);
    forall j | i <= j < |states| - 1 ensures !LostAt(states, i, j, n) {
      if LostAt(states, i, j, n) {
        StaysGuarded(states, events, i, j, n);
        VanishesOnlyUnguarded(states, events, i, j, n);
      }
    }
  }

  lemma VanishesOnlyUnguarded(states: seq<State>, events: seq<Event>, i: nat, j: nat, n: string)
    requires Run(states, events) && i <= j < |events| && SameObject(states, i, j, n) && !SameObject(states, i, j + 1, n)
    requires Guarded(Latest(states, j).networks[n])
    ensures Latest(states, j).networks[n].status.allocations == []
  {
    hide Inv, Apply, Enabled, PodFates, FinalizerRule, Edit, ValidSpec;
    RunStep(states, events, j);
    var c' := Latest(states, j + 1);
    if n in c'.networks { FateUid(states[j], events[j], c', n); }
  }

  // ---------- an unprotected network can be lost ----------

  /** Some write that takes away the finalizers of others: it is accepted and not without effect. */
  function Stripped(n: string, nw: Network): Event {
    EditNetwork(n, nw.spec.(serviceNames := nw.spec.serviceNames + [""]), {})
  }

  lemma StrippedAccepted(s: State, n: string)
    requires Shape(s) && SpecsValid(Now(s)) && n in Now(s).networks
    requires NETWORK_FINALIZER !in Now(s).networks[n].finalizers
    ensures Enabled(s, Stripped(n, Now(s).networks[n]))
  {
    hide ValidSpec, Handle;
    var spec := Now(s).networks[n].spec;
    var spec' := spec.(serviceNames := spec.serviceNames + [""]);
    SameValidity(spec, spec');
    HandleExact(Update(spec, spec'));
  }

  lemma SameValidity(a: Spec, b: Spec)
    requires ValidSpec(a) && b == a.(serviceNames := b.serviceNames)
    ensures ValidSpec(b)
  {
  }

  /** That write removes a deleting network, and leaves a live one without finalizers. */
  lemma StrippedEffect(s: State, n: string)
    requires Shape(s) && n in Now(s).networks && Enabled(s, Stripped(n, Now(s).networks[n]))
    ensures var nw, c := Now(s).networks[n], Next(s, Stripped(n, Now(s).networks[n]));
      && (nw.deleting ==> n !in c.networks)
      && (!nw.deleting ==>
            && n in c.networks && !c.networks[n].deleting && c.networks[n].finalizers == {}
            && c.networks[n].uid == nw.uid && c.networks[n].status == nw.status)
  {
    hide Handle;
    var nw := Now(s).networks[n];
    var services := nw.spec.serviceNames;
    assert |services + [""]| != |services|;
    assert nw.spec.(serviceNames := services + [""]) != nw.spec;
  }

  lemma DeleteEffect(s: State, n: string)
    requires Shape(s) && n in Now(s).networks && !Now(s).networks[n].deleting && Now(s).networks[n].finalizers == {}
    ensures Enabled(s, DeleteNetwork(n)) && n !in Next(s, DeleteNetwork(n)).networks
  {
  }

  lemma LastOfRun(states: seq<State>, events: seq<Event>)
    requires Run(states, events)
    ensures |states| == |events| + 1 && Shape(states[|events|]) && Latest(states, |events|) == Now(states[|events|])
    ensures SpecsValid(Now(states[|events|]))
  {
    hide Shape, Run, Inv, HistoryInv, GoodStore, ValidSpec;
    RunLengths(states, events);
    RunInv(states, events, |events|);
    InvHasHistory(states[|events|]);
    SpecsAreValid(states[|events|]);
    GoodNow(states, events, |events|);
    LatestIsNow(states, |events|);
  }

  /** A live network without finalizers is lost by its deletion. */
  lemma LostByDeletion(states: seq<State>, events: seq<Event>, i: nat, n: string)
    requires Run(states, events) && i <= |events| && SameObject(states, i, |events|, n)
    requires var nw := Latest(states, |events|).networks[n];
      !nw.deleting && nw.finalizers == {} && nw.status.allocations != []
    ensures exists states', events' :: Continues(states, events, states', events') && LostFrom(states', i, n)
  {
    hide Run, Shape, Enabled, Apply, SpecsValid;
    LastOfRun(states, events);
    var s := states[|events|];
    DeleteEffect(s, n);
    NextOfRun(states, events, DeleteNetwork(n));
    var states', events' := states + [Apply(s, DeleteNetwork(n))], events + [DeleteNetwork(n)];
    assert LostAt(states', i, |events|, n);
    assert Continues(states, events, states', events') && LostFrom(states', i, n);
  }

  lemma UnprotectedCanBeLost(states: seq<State>, events: seq<Event>, n: string)
    requires Run(states, events) && n in Latest(states, |events|).networks
    requires var nw := Latest(states, |events|).networks[n];
      NETWORK_FINALIZER !in nw.finalizers && nw.status.allocations != []
    ensures CanBeLost(states, events, n)
  {
    hide Run, Shape, Enabled, Apply, SpecsValid, Stripped;
    LastOfRun(states, events);
    var k, s := |events|, states[|events|];
    var e := Stripped(n, Now(s).networks[n]);
    StrippedAccepted(s, n);
    StrippedEffect(s, n);
    NextOfRun(states, events, e);
    var states', events' := states + [Apply(s, e)], events + [e];
    assert Continues(states, events, states', events');
    if Now(s).networks[n].deleting {
      assert LostAt(states', k, k, n);
      assert LostFrom(states', k, n);
    } else {
      assert Latest(states', k) == Latest(states, k);
      LostByDeletion(states', events', k, n);
      var states'', events'' :| Continues(states', events', states'', events'') && LostFrom(states'', k, n);
      assert Continues(states, events, states'', events'');
    }
  }

  lemma InvHasHistory(s: State)
    requires Inv(s)
    ensures HistoryInv(s)
  {
  }

  /** A network that holds allocations can be lost if and only if it does not have the finalizer, live or deleting. */
  lemma LostExactly(states: seq<State>, events: seq<Event>, n: string)
    requires Run(states, events) && n in Latest(states, |events|).networks
    requires Latest(states, |events|).networks[n].status.allocations != []
    ensures CanBeLost(states, events, n) <==> NETWORK_FINALIZER !in Latest(states, |events|).networks[n].finalizers
  {
    hide Run, LostFrom;
    RunLengths(states, events);
    if NETWORK_FINALIZER !in Latest(states, |events|).networks[n].finalizers {
      UnprotectedCanBeLost(states, events, n);
    } else if CanBeLost(states, events, n) {
      var states', events' :| Continues(states, events, states', events') && LostFrom(states', |events|, n);
      assert states'[|events|] == states[|events|];
      ProtectedNeverLost(states', events', |events|, n);
    }
  }
}
