/** A pass that is left alone succeeds: with current caches, no faults and room in the pools it does not requeue. */
module Progress {
  import opened Wrappers
  import opened Addresses
  import opened Api
  import opened Allocations
  import opened Ipam
  import opened Cluster
  import opened Invariant
  import opened Steps
  import opened Preservation
  import opened Runs

  // ---------- room for a pod ----------

  /** The pool can take the pod: more addresses than allocations, or the requested one is free. */
  ghost predicate PoolTakes(c: Cidr, n: string, nw: Network, pod: Pod)
    requires c.Valid()
  {
    match RequestFor(pod, n)
    case Unparsable => |nw.status.allocations| < Last(c) - c.written
    case NotIPv4 => false
    case IPv4(a) => a < IPV4_SPACE && InNet(c, a) && Text(a) !in IPsOf(nw.status.allocations)
  }

  /** The pod has an address and is allocated in the network, or the network is live and its pool can take the pod. */
  ghost predicate HasRoom(p: string, pod: Pod, n: string, nw: Network) {
    && pod.podIP != ""
    && (|| IsAllocated(nw.status, p)
        || (&& !nw.deleting && ParseCIDR(nw.spec.allocatableCIDR).Some?
            && PoolTakes(ParseCIDR(nw.spec.allocatableCIDR).value, n, nw, pod)))
  }

  lemma PoolGives(c: Cidr, n: string, nw: Network, pod: Pod)
    requires ParseCIDR(nw.spec.allocatableCIDR) == Some(c) && PoolTakes(c, n, nw, pod)
    ensures NewIP(n, nw, pod).Ok?
  {
    hide Text, ParseCIDR;
    if RequestFor(pod, n).Unparsable? { NewIPWithRoom(n, nw, pod, c); }
  }

  lemma RoomSuffices(p: string, pod: Pod, n: string, nw: Network)
    requires Asks(pod, n) ==> HasRoom(p, pod, n, nw)
    ensures Edit(p, pod, n, nw).Ok?
  {
    hide ParseCIDR, PoolTakes, NewIP, Wanted;
    WantedIsAsked(pod, n);
    if n in Wanted(pod) && !IsAllocated(nw.status, p) {
      PoolGives(ParseCIDR(nw.spec.allocatableCIDR).value, n, nw, pod);
    }
  }

  // ---------- a pass on its own ----------

  /** Both caches show the newest store. */
  ghost predicate Current(s: State) {
    s.podPos + 1 == |s.hist| && s.netPos + 1 == |s.hist|
  }

  /** From i to before k there is one pass of the pod's worker that has not returned, and nothing else. */
  ghost predicate Going(events: seq<Event>, i: nat, k: nat, p: string) {
    && i + 1 < k <= |events|
    && events[i] == ReadPod(p) && events[i + 1] == ListNetworks(p)
    && forall j :: i + 1 < j < k ==> events[j].ProcessNetwork? && events[j].p == p && events[j].fault == NoFault
  }

  /** From i to k there is one pass of the pod's worker and nothing else, and none of its requests meets a fault. */
  ghost predicate Alone(events: seq<Event>, i: nat, k: nat, p: string) {
    Going(events, i, k, p) && k < |events| && events[k] == Finish(p, NoFault)
  }

  /** Every network the pod wants is there and has room for it. */
  ghost predicate Welcome(c: Store, p: string, pod: Pod) {
    forall n :: Asks(pod, n) ==> n in c.networks && HasRoom(p, pod, n, c.networks[n])
  }

  /** In the middle of such a pass: what is left to do is as it was listed, and what is done is done without errors. */
  ghost predicate Undisturbed(c: Store, s: State, p: string, pod: Pod) {
    && Shape(s) && p in s.workers && s.workers[p].Listed? && !s.workers[p].hasErrors
    && s.hist[s.workers[p].podAt].pods[p] == pod && s.hist[s.workers[p].netAt].networks == c.networks
    && p in Now(s).pods && Now(s).pods[p] == pod
    && Wanted(pod) - s.workers[p].todo <= s.workers[p].processed
    && forall n :: n in s.workers[p].todo ==> n in Now(s).networks && Now(s).networks[n] == c.networks[n]
  }

  lemma UndisturbedStart(s: State, p: string)
    requires Shape(s) && Current(s) && Enabled(s, ReadPod(p)) && Shape(Apply(s, ReadPod(p)))
    requires Enabled(Apply(s, ReadPod(p)), ListNetworks(p))
    requires Shape(Apply(Apply(s, ReadPod(p)), ListNetworks(p)))
    requires Wanted(Now(s).pods[p]) <= Now(s).networks.Keys
    ensures Undisturbed(Now(s), Apply(Apply(s, ReadPod(p)), ListNetworks(p)), p, Now(s).pods[p])
  {
    hide Wanted, WriteBack, DropFinalizer, NetworkControl, PutPod, PutNetwork;
  }

  /** The status update of a listed network that has not changed is accepted, and touches nothing else. */
  lemma AcceptedWrite(c: Store, n: string, nw: Network, st: Status)
    requires n in c.networks && c.networks[n] == nw
    ensures var (c', r) := Send(c, UpdateStatus(c, n, nw.(status := st)), NoFault);
      && r == Accepted && c'.pods == c.pods
      && forall m :: m != n && m in c.networks ==> m in c'.networks && c'.networks[m] == c.networks[m]
  {
  }

  lemma UndisturbedWrite(c: Store, s: State, p: string, pod: Pod, n: string)
    requires Undisturbed(c, s, p, pod) && Welcome(c, p, pod) && n in s.workers[p].todo
    ensures Enabled(s, ProcessNetwork(p, n, NoFault)) && !WriteBack(s, p, n, NoFault).1
    ensures var c' := WriteBack(s, p, n, NoFault).0;
      && c'.pods == Now(s).pods
      && forall m :: m in s.workers[p].todo && m != n ==> m in c'.networks && c'.networks[m] == c.networks[m]
  {
    hide Wanted, HasRoom, Edit, UpdateStatus;
    var nw := Now(s).networks[n];
    RoomSuffices(p, pod, n, nw);
    AcceptedWrite(Now(s), n, nw, Edit(p, pod, n, nw).value);
  }

  lemma UndisturbedStep(c: Store, s: State, p: string, pod: Pod, n: string)
    requires Undisturbed(c, s, p, pod) && Welcome(c, p, pod)
    requires Enabled(s, ProcessNetwork(p, n, NoFault)) && Shape(Apply(s, ProcessNetwork(p, n, NoFault)))
    ensures Undisturbed(c, Apply(s, ProcessNetwork(p, n, NoFault)), p, pod)
  {
    hide Wanted, HasRoom, Edit, WriteBack;
    UndisturbedWrite(c, s, p, pod, n);
  }

  lemma UndisturbedEnd(c: Store, s: State, p: string, pod: Pod)
    requires Undisturbed(c, s, p, pod) && Enabled(s, Finish(p, NoFault))
    ensures !Requeues(s, p, NoFault)
  {
    hide Wanted;
  }

  lemma RunShape(states: seq<State>, events: seq<Event>, i: nat)
    requires Run(states, events) && i < |events|
    ensures |states| == |events| + 1 && Shape(states[i]) && Shape(states[i + 1]) && Enabled(states[i], events[i])
    ensures states[i + 1] == Apply(states[i], events[i])
    ensures Latest(states, i) == Now(states[i])
  {
    hide Shape, Enabled, Apply, Run, NetworkFates, PodFates, FinalizerRule, Inv;
    RunLengths(states, events);
    RunStep(states, events, i);
    GoodNow(states, events, i + 1);
  }

  lemma {:induction false} StaysUndisturbed(states: seq<State>, events: seq<Event>, i: nat, k: nat, j: nat, p: string)
    requires Run(states, events) && Alone(events, i, k, p) && i + 1 < j <= k
    requires |states| == |events| + 1 && Current(states[i]) && p in Latest(states, i).pods
    requires Welcome(Latest(states, i), p, Latest(states, i).pods[p])
    ensures Undisturbed(Latest(states, i), states[j], p, Latest(states, i).pods[p])
  {
    hide Run, Shape, Enabled, Apply, Undisturbed, HasRoom;
    RunShape(states, events, j - 1);
    if j == i + 2 {
      RunShape(states, events, i);
      WelcomeListed(Latest(states, i), p, Latest(states, i).pods[p]);
      UndisturbedStart(states[i], p);
    } else {
      StaysUndisturbed(states, events, i, k, j - 1, p);
      UndisturbedStep(Latest(states, i), states[j - 1], p, Latest(states, i).pods[p], events[j - 1].n);
    }
  }

  lemma WelcomeListed(c: Store, p: string, pod: Pod)
    requires Welcome(c, p, pod)
    ensures Wanted(pod) <= c.networks.Keys
  {
    hide Wanted, HasRoom;
    forall n | n in Wanted(pod) ensures n in c.networks { WantedIsAsked(pod, n); }
  }

  /**
   A pass that starts with current caches, is left alone, meets no faults, and whose pod finds room in
   every network it wants, does not ask to be queued again; so it leaves the pod where it should be.
   */
  lemma UndisturbedPassSucceeds(states: seq<State>, events: seq<Event>, i: nat, k: nat, p: string)
    requires Run(states, events) && Alone(events, i, k, p)
    requires |states| == |events| + 1 && Current(states[i]) && p in Latest(states, i).pods
    requires Welcome(Latest(states, i), p, Latest(states, i).pods[p])
    ensures Shape(states[k]) && Enabled(states[k], events[k]) && !Requeues(states[k], p, NoFault)
    ensures PassSucceeded(states[k], p, Latest(states, k + 1))
  {
    hide Run, Shape, Enabled, Apply, Undisturbed, Welcome, Requeues, PassSucceeded;
    RunShape(states, events, k);
    StaysUndisturbed(states, events, i, k, k, p);
    UndisturbedEnd(Latest(states, i), states[k], p, Latest(states, i).pods[p]);
    ReconcileOutcome(states, events, k);
  }

  // ---------- such a pass is possible ----------

  lemma InLoopCanGo(s: State, p: string)
    requires Shape(s) && p in s.workers && s.workers[p].Listed?
    ensures s.workers[p].todo == {} ==> Enabled(s, Finish(p, NoFault))
    ensures forall n :: n in s.workers[p].todo ==>
      && Enabled(s, ProcessNetwork(p, n, NoFault))
      && var s' := Apply(s, ProcessNetwork(p, n, NoFault));
      p in s'.workers && s'.workers[p].Listed? && s'.workers[p].todo == s.workers[p].todo - {n}
  {
    hide WriteBack, Wanted;
  }

  /** A worker in its loop can be left alone until it has returned. */
  lemma {:induction false} LoopCanEnd(states: seq<State>, events: seq<Event>, i: nat, p: string)
    returns (states': seq<State>, events': seq<Event>)
    requires Run(states, events) && |states| == |events| + 1 && Going(events, i, |events|, p)
    requires var s := states[|events|]; Shape(s) && p in s.workers && s.workers[p].Listed?
    ensures Continues(states, events, states', events')
    ensures |events'| > |events| && Alone(events', i, |events'| - 1, p)
    decreases |states[|events|].workers[p].todo|
  {
    hide Run, Shape, Enabled, Apply;
    var s := states[|events|];
    InLoopCanGo(s, p);
    if s.workers[p].todo == {} {
      NextOfRun(states, events, Finish(p, NoFault));
      states', events' := states + [Apply(s, Finish(p, NoFault))], events + [Finish(p, NoFault)];
    } else {
      var n :| n in s.workers[p].todo;
      var e := ProcessNetwork(p, n, NoFault);
      NextOfRun(states, events, e);
      states', events' := LoopCanEnd(states + [Apply(s, e)], events + [e], i, p);
    }
  }

  lemma ReadablePod(s: State, p: string)
    requires Shape(s) && Current(s) && Enabled(s, ReadPod(p))
    ensures p in Now(s).pods
  {
  }

  lemma FirstSteps(s: State, p: string)
    requires Shape(s) && Enabled(s, ReadPod(p)) && Shape(Apply(s, ReadPod(p)))
    ensures var s' := Apply(s, ReadPod(p));
      && Enabled(s', ListNetworks(p))
      && var s'' := Apply(s', ListNetworks(p)); p in s''.workers && s''.workers[p].Listed?
  {
  }

  /** Whenever the caches are current and an idle pod finds room, the run can go on with a pass that succeeds. */
  lemma PassCanSucceed(states: seq<State>, events: seq<Event>, p: string)
    returns (states': seq<State>, events': seq<Event>)
    requires Run(states, events) && |states| == |events| + 1
    requires var s := states[|events|]; Shape(s) && Current(s) && Enabled(s, ReadPod(p))
    requires Welcome(Latest(states, |events|), p, Now(states[|events|]).pods[p])
    ensures Continues(states, events, states', events') && |events'| > |events|
    ensures var s := states'[|events'| - 1];
      && Shape(s) && Enabled(s, Finish(p, NoFault)) && events'[|events'| - 1] == Finish(p, NoFault)
      && !Requeues(s, p, NoFault) && PassSucceeded(s, p, Latest(states', |events'|))
  {
    hide Run, Apply, Welcome, Requeues, PassSucceeded, HasRoom, Shape, Enabled, Latest, Current;
    ReadablePod(states[|events|], p);
    var i, s := |events|, states[|events|];
    LatestIsNow(states, i);
    NextOfRun(states, events, ReadPod(p));
    FirstSteps(s, p);
    var states1, events1 := states + [Apply(s, ReadPod(p))], events + [ReadPod(p)];
    NextOfRun(states1, events1, ListNetworks(p));
    var states2, events2 := states1 + [Apply(states1[i + 1], ListNetworks(p))], events1 + [ListNetworks(p)];
    states', events' := LoopCanEnd(states2, events2, i, p);
    RunLengths(states', events');
    assert states'[i] == states[i];
    LatestIsNow(states', i);
    UndisturbedPassSucceeds(states', events', i, |events'| - 1, p);
  }
}
