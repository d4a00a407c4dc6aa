/**
 The cluster as a state machine. An API server keeps pods and networks and accepts a
 write only against the current version of an object. The operator sees the cluster
 through two caches, each some way behind, and its pod workers run in micro-steps:
 read the pod, list the networks, process one network, finish. The network controller,
 users, and workers of other pods take their steps in between.
 */
module Cluster {
  import opened Wrappers
  import opened Api
  import opened Ipam
  import opened Validating

  // ---------- the API server ----------

  /** Everything stored; every accepted write takes the next number as its version. */
  datatype Store = Store(pods: map<string, Pod>, networks: map<string, Network>, next: nat)

  datatype Reply = Accepted | NotFound | Conflict | Rejected | Failed

  /** What can go wrong between a client and the server. */
  datatype Fault = NoFault | RequestLost | ReplyLost

  /** Keep an object; one that is being deleted goes away with its last finalizer. */
  function PutNetwork(c: Store, n: string, nw: Network): Store {
    if n in c.networks && c.networks[n] == nw then c
    else if nw.deleting && nw.finalizers == {} then c.(networks := c.networks - {n}, next := c.next + 1)
    else c.(networks := c.networks[n := nw.(version := c.next)], next := c.next + 1)
  }

  function PutPod(c: Store, p: string, pod: Pod): Store {
    if p in c.pods && c.pods[p] == pod then c
    else if pod.deleting && pod.finalizers == {} then c.(pods := c.pods - {p}, next := c.next + 1)
    else c.(pods := c.pods[p := pod.(version := c.next)], next := c.next + 1)
  }

  /** Status().Update: only the status is written. */
  function UpdateStatus(c: Store, n: string, nw: Network): (Store, Reply) {
    if n !in c.networks then (c, NotFound)
    else if c.networks[n].version != nw.version then (c, Conflict)
    else (PutNetwork(c, n, c.networks[n].(status := nw.status)), Accepted)
  }

  /** Update of a network: spec and finalizers are written, the status is not. */
  function UpdateNetwork(c: Store, n: string, nw: Network): (Store, Reply) {
    if n !in c.networks then (c, NotFound)
    else if c.networks[n].version != nw.version then (c, Conflict)
    else if Handle(Update(c.networks[n].spec, nw.spec)) != Allowed then (c, Rejected)
    else (PutNetwork(c, n, c.networks[n].(spec := nw.spec, finalizers := nw.finalizers)), Accepted)
  }

  /** Update of a pod: here only its finalizers ever differ. */
  function UpdatePod(c: Store, p: string, pod: Pod): (Store, Reply) {
    if p !in c.pods then (c, NotFound)
    else if c.pods[p].version != pod.version then (c, Conflict)
    else (PutPod(c, p, c.pods[p].(finalizers := pod.finalizers)), Accepted)
  }

  /** One request over an unreliable connection: it may not arrive, or its reply may not. */
  function Send(c: Store, answer: (Store, Reply), fault: Fault): (Store, Reply) {
    match fault
    case NoFault => answer
    case RequestLost => (c, Failed)
    case ReplyLost => (answer.0, Failed)
  }

  // ---------- the pod reconciler ----------

  /** A running Reconcile. Snapshots are named by their place in the history of the store. */
  datatype Worker =
    | Loaded(podAt: nat)
    | Listed(podAt: nat, netAt: nat, todo: set<string>, hasErrors: bool, processed: set<string>)

  /** uniqueNetworks: the networks the pod should be in. */
  function Wanted(pod: Pod): set<string> {
    if pod.deleting then {} else Elements(pod.annotations.memberOf) + Elements(pod.annotations.routerFor)
  }

  /** routerNetworks: the networks the pod should be a router of. */
  function WantedRouter(pod: Pod): set<string> {
    if pod.deleting then {} else Elements(pod.annotations.routerFor)
  }

  /** The status the pod's worker wants for one listed network. */
  function Edit(p: string, pod: Pod, n: string, nw: Network): Result<Status, IpamError> {
    if n in Wanted(pod) then
      Allocate(n, nw, p, pod, n in WantedRouter(pod),
               ItemsFor(pod.annotations.extraRoutes, n), ItemsFor(pod.annotations.extraRouters, n))
    else Ok(Deallocate(nw.status, p))
  }

  // ---------- the state ----------

  /** The history of the store, newest last; how far each cache has got; the running workers. */
  datatype State = State(hist: seq<Store>, podPos: nat, netPos: nat, workers: map<string, Worker>)

  function Now(s: State): Store
    requires s.hist != []
  {
    s.hist[|s.hist| - 1]
  }

  ghost predicate Init(s: State) {
    s == State([Store(map[], map[], 0)], 0, 0, map[])
  }

  /** The indices a state holds are places in its history. */
  ghost predicate Shape(s: State) {
    && s.podPos < |s.hist| && s.netPos < |s.hist|
    && forall p :: p in s.workers ==> WorkerShape(s, p, s.workers[p])
  }

  ghost predicate WorkerShape(s: State, p: string, w: Worker) {
    && w.podAt <= s.podPos < |s.hist|
    && p in s.hist[w.podAt].pods && s.hist[w.podAt].pods[p].Injected()
    && (w.Listed? ==>
      w.netAt <= s.netPos < |s.hist| && w.todo <= s.hist[w.netAt].networks.Keys)
  }

  datatype Event =
    | ReadPod(p: string)
    | ListNetworks(p: string)
    | ProcessNetwork(p: string, n: string, fault: Fault)
    | Finish(p: string, fault: Fault)
    | Abandon(p: string)
    | AdvancePods(pos: nat)
    | AdvanceNetworks(pos: nat)
    | NetworkPass(n: string, at: nat, fault: Fault)
    | CreatePod(p: string, pod: Pod)
    | EditPod(p: string, pod: Pod)
    | DeletePod(p: string)
    | CreateNetwork(n: string, spec: Spec, finalizers: set<string>)
    | EditNetwork(n: string, spec: Spec, finalizers: set<string>)
    | DeleteNetwork(n: string)

  /**
   When an event can happen. The assumptions about the surroundings are here: one worker
   per pod, caches that never go back, injected pods created with the finalizer, nobody
   else touching the two finalizers, and the label not added to a pod without the finalizer.
   */
  ghost predicate Enabled(s: State, e: Event)
    requires Shape(s)
  {
    var c := Now(s);
    match e
    case ReadPod(p) =>
      p !in s.workers && p in s.hist[s.podPos].pods && s.hist[s.podPos].pods[p].Injected()
    case ListNetworks(p) => p in s.workers && s.workers[p].Loaded?
    case ProcessNetwork(p, n, _) => p in s.workers && s.workers[p].Listed? && n in s.workers[p].todo
    case Finish(p, _) => p in s.workers && s.workers[p].Listed? && s.workers[p].todo == {}
    case Abandon(p) => p in s.workers
    case AdvancePods(pos) => s.podPos <= pos < |s.hist|
    case AdvanceNetworks(pos) => s.netPos <= pos < |s.hist|
    case NetworkPass(n, at, _) => at < |s.hist| && n in s.hist[at].networks
    case CreatePod(p, pod) =>
      p !in c.pods && !pod.deleting && (pod.Injected() ==> POD_FINALIZER in pod.finalizers)
    case EditPod(p, pod) =>
      && p in c.pods && pod.deleting == c.pods[p].deleting
      && (POD_FINALIZER in pod.finalizers <==> POD_FINALIZER in c.pods[p].finalizers)
      && (pod.Injected() && !c.pods[p].Injected() ==> POD_FINALIZER in pod.finalizers)
    case DeletePod(p) => p in c.pods
    case CreateNetwork(n, spec, _) => n !in c.networks && Handle(Create(spec)) == Allowed
    case EditNetwork(n, spec, finalizers) =>
      && n in c.networks && Handle(Update(c.networks[n].spec, spec)) == Allowed
      && (NETWORK_FINALIZER in finalizers <==> NETWORK_FINALIZER in c.networks[n].finalizers)
    case DeleteNetwork(n) => n in c.networks
  }

  // ---------- the steps ----------

  function Push(s: State, c: Store): State {
    s.(hist := s.hist + [c])
  }

  /** The store after the network's status was sent, and whether the reconciler saw an error. */
  function WriteBack(s: State, p: string, n: string, fault: Fault): (Store, bool)
    requires Shape(s) && Enabled(s, ProcessNetwork(p, n, fault))
  {
    var w := s.workers[p];
    var nw := s.hist[w.netAt].networks[n];
    match Edit(p, s.hist[w.podAt].pods[p], n, nw)
    case Err(_) => (Now(s), true)
    case Ok(st) =>
      var (c, r) := Send(Now(s), UpdateStatus(Now(s), n, nw.(status := st)), fault);
      (c, r != Accepted && r != NotFound)
  }

  /** The store after the finalizer was dropped, if it was to be, and whether that failed. */
  function DropFinalizer(s: State, p: string, fault: Fault): (Store, bool)
    requires Shape(s) && Enabled(s, Finish(p, fault))
  {
    var w := s.workers[p];
    var pod := s.hist[w.podAt].pods[p];
    if pod.deleting && !w.hasErrors && POD_FINALIZER in pod.finalizers then
      var (c, r) := Send(Now(s), UpdatePod(Now(s), p, pod.(finalizers := pod.finalizers - {POD_FINALIZER})), fault);
      (c, r != Accepted)
    else (Now(s), false)
  }

  /** What Reconcile returns: whether the pod is to be queued again. */
  predicate Requeues(s: State, p: string, fault: Fault)
    requires Shape(s) && Enabled(s, Finish(p, fault))
  {
    var w := s.workers[p];
    w.hasErrors || DropFinalizer(s, p, fault).1 || !(Wanted(s.hist[w.podAt].pods[p]) <= w.processed)
  }

  /** What the network controller sends after it has read the network, if anything. */
  function Controlled(nw: Network): Option<Network> {
    if nw.deleting then
      if NETWORK_FINALIZER in nw.finalizers && nw.status.allocations == [] then
        Some(nw.(finalizers := nw.finalizers - {NETWORK_FINALIZER}))
      else None
    else if NETWORK_FINALIZER !in nw.finalizers then
      Some(nw.(finalizers := nw.finalizers + {NETWORK_FINALIZER}))
    else None
  }

  /** One pass of the network controller over a snapshot of the network. */
  function NetworkControl(c: Store, n: string, nw: Network, fault: Fault): Store {
    match Controlled(nw)
    case None => c
    case Some(sent) => Send(c, UpdateNetwork(c, n, sent), fault).0
  }

  /** The worker has dealt with one network; the store is now c. */
  function Processed(s: State, p: string, n: string, c: Store, failed: bool): State
    requires Shape(s) && p in s.workers && s.workers[p].Listed?
  {
    var w := s.workers[p];
    var w' := w.(
      todo := w.todo - {n},
      hasErrors := w.hasErrors || failed,
      processed := if n in Wanted(s.hist[w.podAt].pods[p]) && !failed then w.processed + {n} else w.processed);
    Push(s, c).(workers := s.workers[p := w'])
  }

  /** The worker has returned; the store is now c. */
  function Finished(s: State, p: string, c: Store): State {
    Push(s, c).(workers := s.workers - {p})
  }

  function Apply(s: State, e: Event): State
    requires Shape(s) && Enabled(s, e)
  {
    var c := Now(s);
    match e
    case ReadPod(p) => s.(workers := s.workers[p := Loaded(s.podPos)])
    case ListNetworks(p) =>
      s.(workers := s.workers[p := Listed(s.workers[p].podAt, s.netPos, s.hist[s.netPos].networks.Keys, false, {})])
    case ProcessNetwork(p, n, fault) =>
      var (c', failed) := WriteBack(s, p, n, fault);
      Processed(s, p, n, c', failed)
    case Finish(p, fault) => Finished(s, p, DropFinalizer(s, p, fault).0)
    case Abandon(p) => s.(workers := s.workers - {p})
    case AdvancePods(pos) => s.(podPos := pos)
    case AdvanceNetworks(pos) => s.(netPos := pos)
    case NetworkPass(n, at, fault) => Push(s, NetworkControl(c, n, s.hist[at].networks[n], fault))
    case CreatePod(p, pod) => Push(s, PutPod(c, p, pod))
    case EditPod(p, pod) => Push(s, PutPod(c, p, pod))
    case DeletePod(p) => Push(s, PutPod(c, p, c.pods[p].(deleting := true)))
    case CreateNetwork(n, spec, finalizers) =>
      Push(s, PutNetwork(c, n, Network(c.next, c.next, false, finalizers, spec, EMPTY_STATUS)))
    case EditNetwork(n, spec, finalizers) =>
      Push(s, PutNetwork(c, n, c.networks[n].(spec := spec, finalizers := finalizers)))
    case DeleteNetwork(n) => Push(s, PutNetwork(c, n, c.networks[n].(deleting := true)))
  }

  /** A run: states linked by events, from the empty cluster. */
  ghost predicate Run(states: seq<State>, events: seq<Event>) {
    && |states| == |events| + 1 && Init(states[0])
    && forall i :: 0 <= i < |events| ==> Step(states[i], events[i], states[i + 1])
  }

  ghost predicate Step(s: State, e: Event, s': State) {
    Shape(s) && Enabled(s, e) && s' == Apply(s, e)
  }
}
