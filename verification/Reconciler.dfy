/**
 The pod reconciler as it is written: a loop over in-memory network objects with API
 calls in between. Every call lets the rest of the cluster move first. The method is
 proved to go through exactly the micro-steps of the state machine, so what holds of
 every run holds of it.
 */
module Reconciler {
  import opened Wrappers
  import opened Api
  import opened Ipam
  import opened Cluster
  import opened Invariant
  import opened Steps
  import opened Preservation
  import opened Runs

  /** Whose micro-step an event is. */
  function Actor(e: Event): Option<string> {
    match e
    case ReadPod(p) => Some(p)
    case ListNetworks(p) => Some(p)
    case ProcessNetwork(p, _, _) => Some(p)
    case Finish(p, _) => Some(p)
    case Abandon(p) => Some(p)
    case _ => None
  }

  /** The worker of a pod, if one runs. */
  function WorkerFor(s: State, p: string): Option<Worker> {
    if p in s.workers then Some(s.workers[p]) else None
  }

  lemma OthersKeepWorker(s: State, e: Event, p: string)
    requires Shape(s) && Enabled(s, e) && Actor(e) != Some(p)
    ensures WorkerFor(Apply(s, e), p) == WorkerFor(s, p)
    ensures s.hist <= Apply(s, e).hist
  {
    hide WriteBack, DropFinalizer, NetworkControl, PutPod, PutNetwork, Shape, Enabled, Wanted;
    HistoryExtends(s, e);
  }

  /** Whatever the others do along a run, a pod's worker and the past stay as they are. */
  lemma {:induction false} OthersKeepWorkerLong(states: seq<State>, events: seq<Event>, i: nat, k: nat, p: string)
    requires Run(states, events) && i <= k < |states|
    requires forall j :: i <= j < k ==> Actor(events[j]) != Some(p)
    ensures WorkerFor(states[k], p) == WorkerFor(states[i], p)
    ensures states[i].hist <= states[k].hist
  {
    hide Shape, Enabled, Apply;
    if i < k {
      OthersKeepWorkerLong(states, events, i, k - 1, p);
      assert Step(states[k - 1], events[k - 1], states[k]);
      OthersKeepWorker(states[k - 1], events[k - 1], p);
    }
  }

  /** The worker of p has read the given pod. */
  ghost predicate HasPod(s: State, p: string, pod: Pod) {
    Shape(s) && p in s.workers && s.hist[s.workers[p].podAt].pods[p] == pod && pod.Injected()
  }

  /** The worker of p is in its loop, with the given list and what it has found out so far. */
  ghost predicate Working(s: State, p: string, pod: Pod, listed: map<string, Network>,
                          todo: set<string>, hasErrors: bool, processed: set<string>)
  {
    && HasPod(s, p, pod)
    && s.workers[p].Listed?
    && s.workers[p] == Listed(s.workers[p].podAt, s.workers[p].netAt, todo, hasErrors, processed)
    && s.hist[s.workers[p].netAt].networks == listed
  }

  lemma StillWorking(s: State, s': State, p: string)
    requires Shape(s) && Shape(s') && p in s.workers && WorkerFor(s', p) == WorkerFor(s, p) && s.hist <= s'.hist
    ensures p in s'.workers && s'.workers[p] == s.workers[p]
    ensures s'.hist[s'.workers[p].podAt] == s.hist[s.workers[p].podAt]
    ensures s.workers[p].Listed? ==> s'.hist[s'.workers[p].netAt] == s.hist[s.workers[p].netAt]
  {
  }

  /** The last event of a trace is the return of the worker that has read the given pod, and what it returned. */
  ghost predicate Returned(states: seq<State>, events: seq<Event>, p: string, pod: Pod, requeue: bool) {
    && |events| > 0 && |states| == |events| + 1
    && var s, e := states[|events| - 1], events[|events| - 1];
    && e.Finish? && e.p == p && Shape(s) && Enabled(s, e) && s.hist[s.workers[p].podAt].pods[p] == pod
    && (requeue <==> Requeues(s, p, e.fault))
  }

  /** The last event of a trace sent the status of the network to the store as it then was, and this is the reply. */
  ghost predicate StatusSent(states: seq<State>, events: seq<Event>, p: string, n: string, sent: Network, r: Reply) {
    && |events| > 0 && |states| == |events| + 1
    && var s, s', e := states[|events| - 1], states[|events|], events[|events| - 1];
    && e.ProcessNetwork? && e.p == p && e.n == n && s.hist != [] && s'.hist != []
    && (Now(s'), r) == Send(Now(s), UpdateStatus(Now(s), n, sent), e.fault)
  }

  /** The last event of a trace sent the pod to the store as it then was, and this is the reply. */
  ghost predicate PodSent(states: seq<State>, events: seq<Event>, p: string, sent: Pod, r: Reply) {
    && |events| > 0 && |states| == |events| + 1
    && var s, s', e := states[|events| - 1], states[|events|], events[|events| - 1];
    && e.Finish? && e.p == p && s.hist != [] && s'.hist != []
    && (Now(s'), r) == Send(Now(s), UpdatePod(Now(s), p, sent), e.fault)
  }

  /** What the cache of pods shows. */
  function CachedPod(s: State, p: string): Option<Pod> {
    if s.podPos < |s.hist| && p in s.hist[s.podPos].pods then Some(s.hist[s.podPos].pods[p]) else None
  }

  /** What the cache of networks shows. */
  function CachedNetwork(s: State, n: string): Option<Network> {
    if s.netPos < |s.hist| && n in s.hist[s.netPos].networks then Some(s.hist[s.netPos].networks[n]) else None
  }

  /** None of the events from place i on is a micro-step of the pod's worker. */
  ghost predicate Untouched(events: seq<Event>, i: nat, p: string) {
    forall j :: i <= j < |events| ==> Actor(events[j]) != Some(p)
  }

  /** The API server and the caches, together with everything that has happened so far. */
  class ApiServer {
    var s: State
    ghost var states: seq<State>
    ghost var events: seq<Event>

    ghost predicate Valid()
      reads this
    {
      |states| == |events| + 1 && Run(states, events) && s == states[|events|]
    }

    constructor ()
      ensures Valid() && events == []
    {
      s := State([Store(map[], map[], 0)], 0, 0, map[]);
      states := [State([Store(map[], map[], 0)], 0, 0, map[])];
      events := [];
    }

    lemma Known()
      requires Valid()
      ensures Inv(s) && Shape(s) && s.hist != []
    {
      hide HistoryInv, PodsSeen, NetworksSeen, WorkersKnow;
      RunInv(states, events, |events|);
      ShapeOf(s);
    }

    /** The cluster gets to the given state, which is where the event leads. */
    method Become(next: State, ghost e: Event)
      requires Valid() && Shape(s) && Enabled(s, e) && next == Apply(s, e)
      modifies this
      ensures Valid() && s == next && events == old(events) + [e] && states == old(states) + [next]
    {
      hide Shape, Enabled, Apply;
      s := next;
      states := states + [next];
      assert Step(states[|events|], e, states[|events| + 1]);
      events := events + [e];
    }

    method Happen(e: Event)
      requires Valid() && Shape(s) && Enabled(s, e)
      modifies this
      ensures Valid() && events == old(events) + [e] && old(states) <= states && s == Apply(old(s), e)
    {
      hide Shape, Enabled, Apply;
      Become(Apply(s, e), e);
    }

    /** The rest of the cluster moves: any number of events that are not micro-steps of the pod's worker. */
    method Others(p: string)
      requires Valid()
      modifies this
      ensures Valid() && old(events) <= events && old(states) <= states
      ensures Untouched(events, |old(events)|, p)
    {
    }

    /** Others, with what it means for the pod's worker. */
    method Interfere(p: string)
      requires Valid()
      modifies this
      ensures Valid() && old(events) <= events && old(states) <= states && Shape(s)
      ensures WorkerFor(s, p) == WorkerFor(old(s), p) && old(s).hist <= s.hist
      ensures Untouched(events, |old(events)|, p)
    {
      hide Shape, Step;
      ghost var from := |events|;
      Others(p);
      Known();
      OthersKeepWorkerLong(states, events, from, |events|, p);
      assert states[from] == old(s);
    }

    /** Get of a pod from the cache; for a pod the reconciler handles it starts the worker. */
    method GetPod(p: string) returns (r: Option<Pod>, ghost read: nat)
      requires Valid() && WorkerFor(s, p) == None
      modifies this
      ensures Valid() && old(events) <= events && old(states) <= states && Shape(s)
      ensures |old(events)| <= read <= |events| && r == CachedPod(states[read], p)
      ensures if r.Some? && r.value.Injected() then HasPod(s, p, r.value) && s.workers[p].Loaded?
        else Untouched(events, |old(events)|, p)
    {
      hide WriteBack, DropFinalizer, NetworkControl, PutPod, PutNetwork, Run;
      Interfere(p);
      read := |events|;
      var pods := s.hist[s.podPos].pods;
      r := if p in pods then Some(pods[p]) else None;
      assert r == CachedPod(s, p);
      if r.Some? && r.value.Injected() {
        Happen(ReadPod(p));
        Known();
      }
    }

    /** List of the networks from the cache, in some order. */
    method List(p: string, ghost pod: Pod) returns (names: seq<string>, listed: map<string, Network>)
      requires Valid() && HasPod(s, p, pod) && s.workers[p].Loaded?
      modifies this
      ensures Valid() && old(events) <= events && old(states) <= states
      ensures Elements(names) == listed.Keys && forall i, j :: 0 <= i < j < |names| ==> names[i] != names[j]
      ensures Working(s, p, pod, listed, listed.Keys, false, {})
    {
      hide Apply, Run, Working, Elements;
      ghost var before := s;
      Interfere(p);
      StillWorking(before, s, p);
      listed := s.hist[s.netPos].networks;
      ghost var reading := s;
      Happen(ListNetworks(p));
      Known();
      StartsLoop(reading, p, pod);
      names := InSomeOrder(listed.Keys);
    }

    /** Status().Update of a network, its status edited for the pod. */
    method SendStatus(p: string, nw: NetworkObject, ghost pod: Pod, ghost listed: map<string, Network>,
                      ghost todo: set<string>, ghost hasErrors: bool, ghost processed: set<string>)
      returns (r: Reply)
      requires Valid() && Working(s, p, pod, listed, todo, hasErrors, processed)
      requires nw.name in todo && nw.name in listed && nw.stored == listed[nw.name]
      requires Edit(p, pod, nw.name, listed[nw.name]) == Ok(nw.CurrentStatus())
      modifies this
      ensures Valid() && old(events) <= events && old(states) <= states
      ensures StatusSent(states, events, p, nw.name, nw.Object(), r)
      ensures var failed := r != Accepted && r != NotFound;
        Working(s, p, pod, listed, todo - {nw.name}, hasErrors || failed,
                if nw.name in Wanted(pod) && !failed then processed + {nw.name} else processed)
    {
      hide DropFinalizer, NetworkControl, PutPod, PutNetwork, Run, Edit, UpdateStatus, Shape, Enabled, Apply, Processed,
        Send, Working, WriteBack, Wanted;
      ghost var before := s;
      Interfere(p);
      WorkingOn(before, s, p, pod, listed, todo, hasErrors, processed);
      var fault: Fault := *;
      InLoop(s, p, pod, listed, todo, hasErrors, processed);
      var (c, reply) := Send(Now(s), UpdateStatus(Now(s), nw.name, nw.Object()), fault);
      r := reply;
      assert nw.Object() == listed[nw.name].(status := nw.CurrentStatus());
      ghost var e := ProcessNetwork(p, nw.name, fault);
      SendIsWriteBack(s, p, nw.name, fault, pod, listed, todo, hasErrors, processed, nw.CurrentStatus());
      StepsOn(s, p, nw.name, fault, pod, listed, todo, hasErrors, processed);
      var next := Processed(s, p, nw.name, c, reply != Accepted && reply != NotFound);
      NewestStore(s, p, nw.name, c, reply != Accepted && reply != NotFound);
      Become(next, e);
    }

    /** The network could not be edited: nothing is sent. */
    method GiveUp(p: string, n: string, ghost pod: Pod, ghost listed: map<string, Network>,
                  ghost todo: set<string>, ghost hasErrors: bool, ghost processed: set<string>)
      requires Valid() && Working(s, p, pod, listed, todo, hasErrors, processed)
      requires n in todo && n in listed && Edit(p, pod, n, listed[n]).Err?
      modifies this
      ensures Valid() && old(events) <= events && old(states) <= states
      ensures Working(s, p, pod, listed, todo - {n}, true, processed)
    {
      hide DropFinalizer, NetworkControl, PutPod, PutNetwork, Run, Edit;
      StepsOn(s, p, n, NoFault, pod, listed, todo, hasErrors, processed);
      Become(Processed(s, p, n, Now(s), true), ProcessNetwork(p, n, NoFault));
    }

    /** Update of the pod, sent without its finalizer; this ends the pass. */
    method SendFinalizer(p: string, sent: Pod, ghost pod: Pod, ghost listed: map<string, Network>,
                         ghost processed: set<string>)
      returns (r: Reply)
      requires Valid() && Working(s, p, pod, listed, {}, false, processed)
      requires pod.deleting && POD_FINALIZER in pod.finalizers
      requires sent == pod.(finalizers := pod.finalizers - {POD_FINALIZER})
      modifies this
      ensures Valid() && old(events) <= events && old(states) <= states
      ensures PodSent(states, events, p, sent, r)
      ensures Returned(states, events, p, pod, r != Accepted || !(Wanted(pod) <= processed))
    {
      hide Working, Requeues, UpdatePod, Shape, Run, Wanted, Enabled, Apply, Send, DropFinalizer;
      ghost var before := s;
      Interfere(p);
      WorkingOn(before, s, p, pod, listed, {}, false, processed);
      var fault: Fault := *;
      InLoop(s, p, pod, listed, {}, false, processed);
      var (c, reply) := Send(Now(s), UpdatePod(Now(s), p, sent), fault);
      r := reply;
      SendIsDrop(s, p, fault, pod, listed, processed);
      Become(Finished(s, p, c), Finish(p, fault));
    }

    /** The pass ends without touching the pod. */
    method Return(p: string, ghost pod: Pod, ghost listed: map<string, Network>, ghost hasErrors: bool,
                  ghost processed: set<string>)
      requires Valid() && Working(s, p, pod, listed, {}, hasErrors, processed)
      requires hasErrors || !pod.deleting || POD_FINALIZER !in pod.finalizers
      modifies this
      ensures Valid() && old(events) <= events && old(states) <= states
      ensures s.hist != [] && old(s).hist != [] && Now(s) == Now(old(s))
      ensures Returned(states, events, p, pod, hasErrors || !(Wanted(pod) <= processed))
    {
      hide DropFinalizer, Working, Requeues, Shape, Run, Wanted, Enabled, Apply;
      InLoop(s, p, pod, listed, {}, hasErrors, processed);
      NothingToDrop(s, p, pod, listed, hasErrors, processed);
      Become(Finished(s, p, Now(s)), Finish(p, NoFault));
    }

    /** Get of a network from the cache; at is the place of the history the cache has got to. */
    method GetNetwork(n: string) returns (r: Option<Network>, ghost read: nat, ghost at: nat)
      requires Valid()
      modifies this
      ensures Valid() && old(events) <= events && old(states) <= states && Shape(s)
      ensures |old(events)| <= read == |events| && r == CachedNetwork(states[read], n)
      ensures r.Some? ==> at < |s.hist| && n in s.hist[at].networks && s.hist[at].networks[n] == r.value
    {
      Interfere("");
      read, at := |events|, s.netPos;
      var networks := s.hist[s.netPos].networks;
      r := if n in networks then Some(networks[n]) else None;
    }

    /** Update of a network with what the network controller has made of the object it has read. */
    method SendNetwork(n: string, sent: Network, ghost seen: Network, ghost at: nat) returns (r: Reply)
      requires Valid() && Shape(s) && at < |s.hist| && n in s.hist[at].networks && s.hist[at].networks[n] == seen
      requires Controlled(seen) == Some(sent)
      modifies this
      ensures Valid() && old(events) <= events && old(states) <= states
      ensures Passed(states, events, n, seen, r != Accepted && r != NotFound)
    {
      hide Run, Shape, UpdateNetwork, Controlled, Send;
      ghost var before := s;
      Interfere("");
      ShapeFacts(s);
      assert s.hist[at] == before.hist[at];
      var fault: Fault := *;
      var (c, reply) := Send(Now(s), UpdateNetwork(Now(s), n, sent), fault);
      r := reply;
      Become(Push(s, c), NetworkPass(n, at, fault));
    }

    /** The network controller has nothing to send. */
    method KeepNetwork(n: string, ghost seen: Network, ghost at: nat)
      requires Valid() && Shape(s) && at < |s.hist| && n in s.hist[at].networks && s.hist[at].networks[n] == seen
      requires Controlled(seen) == None
      modifies this
      ensures Valid() && old(events) <= events && old(states) <= states
      ensures Passed(states, events, n, seen, false)
    {
      hide Run, Shape, UpdateNetwork, Controlled;
      ShapeFacts(s);
      Become(Push(s, Now(s)), NetworkPass(n, at, NoFault));
    }
  }

  /** The last event is a pass of the network controller over what it saw, with its outcome. */
  ghost predicate Passed(states: seq<State>, events: seq<Event>, n: string, seen: Network, err: bool) {
    && |events| > 0 && |states| == |events| + 1
    && var s, s', e := states[|events| - 1], states[|events|], events[|events| - 1];
    && e.NetworkPass? && e.n == n && e.at < |s.hist| && n in s.hist[e.at].networks && s.hist[e.at].networks[n] == seen
    && s'.hist != []
    && match Controlled(seen)
       case None => Now(s') == Now(s) && !err
       case Some(sent) =>
         var (c, r) := Send(Now(s), UpdateNetwork(Now(s), n, sent), e.fault);
         Now(s') == c && (err <==> r != Accepted && r != NotFound)
  }

  lemma ShapeFacts(s: State)
    requires Shape(s)
    ensures s.hist != [] && s.netPos < |s.hist| && s.podPos < |s.hist|
  {
  }

  lemma NewestStore(s: State, p: string, n: string, c: Store, failed: bool)
    requires Shape(s) && p in s.workers && s.workers[p].Listed?
    ensures Processed(s, p, n, c, failed).hist != [] && Now(Processed(s, p, n, c, failed)) == c
  {
  }

  /** A worker in its loop can process what is left, or finish when nothing is. */
  lemma InLoop(s: State, p: string, pod: Pod, listed: map<string, Network>,
               todo: set<string>, hasErrors: bool, processed: set<string>)
    requires Working(s, p, pod, listed, todo, hasErrors, processed)
    ensures Shape(s) && s.hist != [] && p in s.workers && s.workers[p].Listed?
    ensures s.hist[s.workers[p].podAt].pods[p] == pod
    ensures forall n, fault :: n in todo ==> Enabled(s, ProcessNetwork(p, n, fault))
    ensures todo == {} ==> forall fault :: Enabled(s, Finish(p, fault))
  {
  }

  /** Sending the edited object is what the micro-step of the state machine does. */
  lemma SendIsWriteBack(s: State, p: string, n: string, fault: Fault, pod: Pod, listed: map<string, Network>,
                        todo: set<string>, hasErrors: bool, processed: set<string>, st: Status)
    requires Working(s, p, pod, listed, todo, hasErrors, processed) && n in todo && n in listed
    requires Edit(p, pod, n, listed[n]) == Ok(st)
    ensures Shape(s) && Enabled(s, ProcessNetwork(p, n, fault))
    ensures var (c, r) := Send(Now(s), UpdateStatus(Now(s), n, listed[n].(status := st)), fault);
      WriteBack(s, p, n, fault) == (c, r != Accepted && r != NotFound)
  {
    hide Edit, UpdateStatus, Send;
  }

  /** Sending the pod without its finalizer is what the last micro-step of the state machine does. */
  lemma SendIsDrop(s: State, p: string, fault: Fault, pod: Pod, listed: map<string, Network>, processed: set<string>)
    requires Working(s, p, pod, listed, {}, false, processed) && pod.deleting && POD_FINALIZER in pod.finalizers
    ensures Shape(s) && Enabled(s, Finish(p, fault))
    ensures var sent := pod.(finalizers := pod.finalizers - {POD_FINALIZER});
      var (c, r) := Send(Now(s), UpdatePod(Now(s), p, sent), fault);
      && Finished(s, p, c) == Apply(s, Finish(p, fault))
      && (Requeues(s, p, fault) <==> r != Accepted || !(Wanted(pod) <= processed))
  {
    hide UpdatePod, Wanted, Send;
  }

  lemma WorkingOn(s: State, s': State, p: string, pod: Pod, listed: map<string, Network>,
                  todo: set<string>, hasErrors: bool, processed: set<string>)
    requires Working(s, p, pod, listed, todo, hasErrors, processed)
    requires Shape(s') && WorkerFor(s', p) == WorkerFor(s, p) && s.hist <= s'.hist
    ensures Working(s', p, pod, listed, todo, hasErrors, processed)
  {
    StillWorking(s, s', p);
  }

  lemma NothingToDrop(s: State, p: string, pod: Pod, listed: map<string, Network>, hasErrors: bool,
                      processed: set<string>)
    requires Working(s, p, pod, listed, {}, hasErrors, processed)
    requires hasErrors || !pod.deleting || POD_FINALIZER !in pod.finalizers
    ensures Shape(s) && Enabled(s, Finish(p, NoFault))
    ensures Finished(s, p, Now(s)) == Apply(s, Finish(p, NoFault))
    ensures Requeues(s, p, NoFault) <==> hasErrors || !(Wanted(pod) <= processed)
  {
    hide Wanted;
  }

  lemma StartsLoop(s: State, p: string, pod: Pod)
    requires HasPod(s, p, pod) && s.workers[p].Loaded? && Shape(Apply(s, ListNetworks(p)))
    ensures var listed := s.hist[s.netPos].networks;
      Working(Apply(s, ListNetworks(p)), p, pod, listed, listed.Keys, false, {})
  {
    hide WriteBack, DropFinalizer, NetworkControl, PutPod, PutNetwork;
  }

  lemma StepsOn(s: State, p: string, n: string, fault: Fault, pod: Pod, listed: map<string, Network>,
                todo: set<string>, hasErrors: bool, processed: set<string>)
    requires Working(s, p, pod, listed, todo, hasErrors, processed) && n in todo
    ensures Shape(s) && Enabled(s, ProcessNetwork(p, n, fault))
    ensures Apply(s, ProcessNetwork(p, n, fault))
      == Processed(s, p, n, WriteBack(s, p, n, fault).0, WriteBack(s, p, n, fault).1)
    ensures var failed := WriteBack(s, p, n, fault).1;
      Working(Apply(s, ProcessNetwork(p, n, fault)), p, pod, listed, todo - {n}, hasErrors || failed,
              if n in Wanted(pod) && !failed then processed + {n} else processed)
  {
    hide WriteBack, DropFinalizer, NetworkControl, PutPod, PutNetwork, Edit;
  }

  method InSomeOrder(keys: set<string>) returns (names: seq<string>)
    ensures Elements(names) == keys && forall i, j :: 0 <= i < j < |names| ==> names[i] != names[j]
  {
    names := [];
    var rest := keys;
    while rest != {}
      invariant Elements(names) + rest == keys && Elements(names) !! rest
      invariant forall i, j :: 0 <= i < j < |names| ==> names[i] != names[j]
    {
      var k :| k in rest;
      assert forall i :: 0 <= i < |names| ==> names[i] in Elements(names);
      names := names + [k];
      rest := rest - {k};
    }
  }

  /** The networks marked true. */
  function Marked(m: map<string, bool>): set<string> {
    set n | n in m && m[n]
  }

  /**
   Reconcile of one pod. It reads the pod from the cache; if there is one that carries the label,
   the trace of the pass is a run of the state machine that ends with the return of the pod's
   worker, and unless the pass asks to be queued again it leaves the pod in the networks exactly
   as its annotations say. Otherwise it does nothing.
   */
  method Reconcile(api: ApiServer, p: string) returns (requeue: bool, ghost read: nat)
    requires api.Valid() && WorkerFor(api.s, p) == None
    modifies api
    ensures api.Valid() && old(api.events) <= api.events && old(api.states) <= api.states
    ensures |old(api.events)| <= read <= |api.events|
    ensures var got := CachedPod(api.states[read], p);
      if got.Some? && got.value.Injected() then
        && Returned(api.states, api.events, p, got.value, requeue)
        && (!requeue ==> PassSucceeded(api.states[|api.events| - 1], p, Now(api.s)))
      else !requeue && Untouched(api.events, |old(api.events)|, p)
  {
    hide Shape, Run, Working, HasPod, Wanted, WantedRouter, Returned, PassSucceeded, CachedPod, Marked, Now, Untouched;
    var got: Option<Pod>;
    got, read := api.GetPod(p);
    if got.None? || !got.value.Injected() {
      return false, read;
    }
    var pod := got.value;
    var annotations := pod.annotations;
    var uniqueNetworks := map n | n in Elements(annotations.memberOf) + Elements(annotations.routerFor) :: false;
    var routerNetworks := Elements(annotations.routerFor);
    var names, listed := api.List(p, pod);
    var shouldRemoveFinalizer := false;
    var hasErrors := false;
    if pod.deleting {
      uniqueNetworks := map[];
      routerNetworks := {};
      shouldRemoveFinalizer := true;
    }
    WantedNetworks(pod);
    NoneMarked(uniqueNetworks);
    assert names[0..] == names;
    for i := 0 to |names|
      invariant api.Valid() && old(api.events) <= api.events && old(api.states) <= api.states
      invariant |old(api.events)| <= read <= |api.events| && CachedPod(api.states[read], p) == got
      invariant uniqueNetworks.Keys == Wanted(pod) && routerNetworks == WantedRouter(pod)
      invariant Working(api.s, p, pod, listed, Elements(names[i..]), hasErrors, Marked(uniqueNetworks))
    {
      var n := names[i];
      assert n in Elements(names);
      TodoStep(names, i);
      var failed := ReconcileNetwork(api, p, pod, n, n in uniqueNetworks, n in routerNetworks, listed,
                                     Elements(names[i..]), hasErrors, Marked(uniqueNetworks));
      if failed {
        hasErrors := true;
      } else if n in uniqueNetworks {
        OneMoreMarked(uniqueNetworks, n);
        uniqueNetworks := uniqueNetworks[n := true];
      }
    }
    assert Elements(names[|names|..]) == {};
    requeue := EndPass(api, p, pod, listed, uniqueNetworks, shouldRemoveFinalizer, hasErrors);
  }

  /** The end of the pass: drop the finalizer if nothing went wrong, and say whether to come back. */
  method EndPass(api: ApiServer, p: string, pod: Pod, ghost listed: map<string, Network>,
                 uniqueNetworks: map<string, bool>, shouldRemoveFinalizer: bool, failed: bool)
    returns (requeue: bool)
    requires api.Valid() && Working(api.s, p, pod, listed, {}, failed, Marked(uniqueNetworks))
    requires uniqueNetworks.Keys == Wanted(pod) && shouldRemoveFinalizer == pod.deleting
    modifies api
    ensures api.Valid() && old(api.events) <= api.events && old(api.states) <= api.states
    ensures Returned(api.states, api.events, p, pod, requeue)
    ensures !requeue ==> PassSucceeded(api.states[|api.events| - 1], p, Now(api.s))
  {
    hide Shape, Run, Working, Wanted, Returned, PassSucceeded, Marked;
    var hasErrors := failed;
    MarkedAll(uniqueNetworks);
    if shouldRemoveFinalizer && !hasErrors && POD_FINALIZER in pod.finalizers {
      var sent := pod.(finalizers := pod.finalizers - {POD_FINALIZER});
      var reply := api.SendFinalizer(p, sent, pod, listed, Marked(uniqueNetworks));
      hasErrors := reply != Accepted;
    } else {
      api.Return(p, pod, listed, hasErrors, Marked(uniqueNetworks));
    }
    requeue := hasErrors || exists n :: n in uniqueNetworks && !uniqueNetworks[n];
    PassEnds(api.states, api.events, p, pod, requeue);
  }

  /** The body of the loop: allocateIP or deallocateIP for one listed network. */
  method ReconcileNetwork(api: ApiServer, p: string, pod: Pod, n: string, wanted: bool, isRouter: bool,
                          listed: map<string, Network>, ghost todo: set<string>, ghost hasErrors: bool,
                          ghost processed: set<string>)
    returns (failed: bool)
    requires api.Valid() && Working(api.s, p, pod, listed, todo, hasErrors, processed) && n in todo && n in listed
    requires wanted <==> n in Wanted(pod)
    requires isRouter <==> n in WantedRouter(pod)
    modifies api
    ensures api.Valid() && old(api.events) <= api.events && old(api.states) <= api.states
    ensures Working(api.s, p, pod, listed, todo - {n}, hasErrors || failed,
                    if wanted && !failed then processed + {n} else processed)
  {
    hide Working, Allocate, Deallocate, Wanted, WantedRouter;
    var nw := new NetworkObject(n, listed[n]);
    assert nw.Object() == listed[n];
    if wanted {
      var extraRoutes := ItemsFor(pod.annotations.extraRoutes, n);
      var extraRouters := ItemsFor(pod.annotations.extraRouters, n);
      var err := nw.AllocateIP(p, pod, isRouter, extraRoutes, extraRouters);
      if err.Some? {
        api.GiveUp(p, n, pod, listed, todo, hasErrors, processed);
        return true;
      }
    } else {
      nw.DeallocateIP(p);
    }
    var reply := api.SendStatus(p, nw, pod, listed, todo, hasErrors, processed);
    failed := reply != Accepted && reply != NotFound;
  }

  lemma WantedNetworks(pod: Pod)
    ensures Wanted(pod)
      == if pod.deleting then {} else Elements(pod.annotations.memberOf) + Elements(pod.annotations.routerFor)
    ensures WantedRouter(pod) == if pod.deleting then {} else Elements(pod.annotations.routerFor)
  {
  }

  lemma TodoStep(names: seq<string>, i: nat)
    requires i < |names| && forall j, k :: 0 <= j < k < |names| ==> names[j] != names[k]
    ensures names[i] in Elements(names[i..]) && Elements(names[i + 1..]) == Elements(names[i..]) - {names[i]}
  {
    assert names[i..] == [names[i]] + names[i + 1..];
    assert forall k :: i < k < |names| ==> names[k] in names[i + 1..];
  }

  lemma NoneMarked(m: map<string, bool>)
    requires forall n :: n in m ==> !m[n]
    ensures Marked(m) == {}
  {
  }

  lemma OneMoreMarked(m: map<string, bool>, n: string)
    ensures Marked(m[n := true]) == Marked(m) + {n}
  {
  }

  lemma MarkedAll(m: map<string, bool>)
    ensures m.Keys <= Marked(m) <==> !(exists n :: n in m && !m[n])
  {
    if forall n :: n in m ==> m[n] {
      assert m.Keys <= Marked(m);
    } else {
      var n :| n in m && !m[n];
      assert n !in Marked(m);
    }
  }

  lemma PassEnds(states: seq<State>, events: seq<Event>, p: string, pod: Pod, requeue: bool)
    requires Run(states, events) && Returned(states, events, p, pod, requeue)
    ensures Shape(states[|events|])
    ensures !requeue ==> PassSucceeded(states[|events| - 1], p, Now(states[|events|]))
  {
    hide Inv, Run, Shape, Enabled, Requeues, PassSucceeded, Apply, Next, NetworkFates, PodFates, FinalizerRule;
    RunStep(states, events, |events| - 1);
    GoodNow(states, events, |events|);
    var i := |events| - 1;
    LatestIsNow(states, i + 1);
    if !requeue { ReconcileOutcome(states, events, i); }
  }
}
