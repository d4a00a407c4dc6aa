/** The network controller: it protects live networks with a finalizer and releases empty deleting ones. */
module NetworkReconciler {
  import opened Wrappers
  import opened Api
  import opened Cluster
  import opened Reconciler

  /** The fetched object; its finalizers are edited in place before it is written back. */
  class FetchedNetwork {
    const stored: Network
    var finalizers: set<string>

    constructor (nw: Network)
      ensures stored == nw && Object() == nw
    {
      stored := nw;
      finalizers := nw.finalizers;
    }

    function Object(): Network
      reads this
    {
      stored.(finalizers := finalizers)
    }

    method AddFinalizer(f: string) returns (changed: bool)
      modifies this
      ensures changed <==> f !in old(finalizers)
      ensures finalizers == old(finalizers) + {f}
    {
      changed := f !in finalizers;
      finalizers := finalizers + {f};
    }

    method RemoveFinalizer(f: string) returns (changed: bool)
      modifies this
      ensures changed <==> f in old(finalizers)
      ensures finalizers == old(finalizers) - {f}
    {
      changed := f in finalizers;
      finalizers := finalizers - {f};
    }
  }

  /**
   Reconcile of one network. It reads the network from the cache; whatever happens before its
   write arrives, a network that is there gets one pass of the state machine's network controller,
   which sends what the code sends, and the error is that of the reply.
   */
  method Reconcile(api: ApiServer, n: string) returns (err: bool, ghost read: nat)
    requires api.Valid()
    modifies api
    ensures api.Valid() && old(api.events) <= api.events && old(api.states) <= api.states
    ensures |old(api.events)| <= read <= |api.events|
    ensures match CachedNetwork(api.states[read], n)
      case None => !err && read == |api.events|
      case Some(seen) =>
        && Passed(api.states, api.events, n, seen, err)
        && (!err ==> Served(Now(api.s), n, seen))
  {
    hide Run, Shape, Passed, CachedNetwork, Served, Now;
    var got: Option<Network>;
    ghost var at: nat;
    got, read, at := api.GetNetwork(n);
    if got.None? {
      return false, read;
    }
    var nw := new FetchedNetwork(got.value);
    var write := false;
    if nw.stored.deleting {
      write := HandleDeletion(nw);
    } else {
      write := nw.AddFinalizer(NETWORK_FINALIZER);
    }
    if write {
      var reply := api.SendNetwork(n, nw.Object(), got.value, at);
      err := reply != Accepted && reply != NotFound;
    } else {
      api.KeepNetwork(n, got.value, at);
      err := false;
    }
    PassServes(api.states, api.events, n, got.value, err);
  }

  /**
   The network that was seen live and without its finalizer has it now, and the one that was seen
   deleting, with it and empty has it no more; or the network is gone.
   */
  ghost predicate Served(c: Store, n: string, seen: Network) {
    n in c.networks ==>
      && (!seen.deleting && NETWORK_FINALIZER !in seen.finalizers ==> NETWORK_FINALIZER in c.networks[n].finalizers)
      && (seen.deleting && NETWORK_FINALIZER in seen.finalizers && seen.status.allocations == [] ==>
            NETWORK_FINALIZER !in c.networks[n].finalizers)
  }

  lemma PassServes(states: seq<State>, events: seq<Event>, n: string, seen: Network, err: bool)
    requires Passed(states, events, n, seen, err)
    ensures states[|events|].hist != []
    ensures !err ==> Served(Now(states[|events|]), n, seen)
  {
  }

  /** handleDeletion: drop the finalizer of a network without allocations. */
  method HandleDeletion(nw: FetchedNetwork) returns (write: bool)
    requires nw.Object() == nw.stored
    modifies nw
    ensures write <==> NETWORK_FINALIZER in nw.stored.finalizers && nw.stored.status.allocations == []
    ensures nw.finalizers == if write then nw.stored.finalizers - {NETWORK_FINALIZER} else nw.stored.finalizers
  {
    write := false;
    if NETWORK_FINALIZER in nw.finalizers && |nw.stored.status.allocations| == 0 {
      write := nw.RemoveFinalizer(NETWORK_FINALIZER);
    }
  }
}
