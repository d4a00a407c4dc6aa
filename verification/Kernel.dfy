/**
 The kernel as the sidecar sees it: named links with their addresses and routes. Every call may
 fail, and then changes nothing; faults counts the calls that failed without a reason in the state.
 */
module Kernel {
  import opened Wrappers
  import opened Addresses
  import opened Ipam

  /** An address with a mask of so many ones in so many bits. */
  datatype IPNet = IPNet(ip: Option<Quad>, ones: nat, bits: nat)

  datatype Route = Route(linkScope: bool, dst: IPNet, gw: Option<Quad>, src: Option<Quad>)

  datatype Device = Device(
    localIP: Option<Quad>,
    remoteIP: Option<Quad>,
    port: nat,
    ttl: nat,
    up: bool,
    addresses: seq<IPNet>,
    routes: set<Route>)

  /** All links but one are the same. */
  ghost predicate OthersSame(links: map<string, Device>, links': map<string, Device>, name: string) {
    forall m :: m != name ==> (m in links <==> m in links') && (m in links ==> links[m] == links'[m])
  }

  /** A link is in both, and differs at most in its routes. */
  ghost predicate RoutesOnly(links: map<string, Device>, links': map<string, Device>, name: string) {
    name in links && name in links' && links'[name] == links[name].(routes := links'[name].routes)
  }

  class Netlink {
    var links: map<string, Device>
    ghost var faults: nat

    constructor (links: map<string, Device>)
      ensures this.links == links && faults == 0
    {
      this.links := links;
      faults := 0;
    }

    /** Whether the next call goes wrong. */
    method Fault() returns (fault: bool)
      modifies this`faults
      ensures faults == if fault then old(faults) + 1 else old(faults)
    {
      fault := *;
      if fault { faults := faults + 1; }
    }

    /** The calls that set up or remove the receiving side of the tunnels, whose state is not modelled. */
    method ReconcileFou() returns (ok: bool)
      modifies this`faults
      ensures faults >= old(faults) && (ok <==> faults == old(faults))
    {
      var fault := Fault();
      ok := !fault;
    }

    /** The names of all links, in some order. */
    method LinkList() returns (ok: bool, names: seq<string>)
      modifies this`faults
      ensures faults >= old(faults) && (ok <==> faults == old(faults))
      ensures ok ==> Elements(names) == links.Keys && forall i, j :: 0 <= i < j < |names| ==> names[i] != names[j]
    {
      var fault := Fault();
      ok := !fault;
      names := [];
      if ok {
        var rest := links.Keys;
        while rest != {}
          invariant Elements(names) + rest == links.Keys
          invariant forall n :: n in names ==> n !in rest
          invariant forall i, j :: 0 <= i < j < |names| ==> names[i] != names[j]
        {
          var k :| k in rest;
          names := names + [k];
          rest := rest - {k};
        }
      }
    }

    method LinkDel(name: string) returns (ok: bool)
      modifies this
      ensures faults >= old(faults) && (ok <==> faults == old(faults) && name in old(links))
      ensures links == if ok then old(links) - {name} else old(links)
    {
      var fault := Fault();
      ok := !fault && name in links;
      if ok { links := links - {name}; }
    }

    /** A tunnel with UDP encapsulation; its ports have 16 bits. */
    method LinkAdd(name: string, local: Option<Quad>, remote: Option<Quad>, port: nat, ttl: nat) returns (ok: bool)
      modifies this
      ensures faults >= old(faults) && (ok <==> faults == old(faults) && name !in old(links))
      ensures links == if ok then old(links)[name := Device(local, remote, port, ttl, false, [], {})] else old(links)
    {
      var fault := Fault();
      ok := !fault && name !in links;
      if ok { links := links[name := Device(local, remote, port, ttl, false, [], {})]; }
    }

    method LinkByName(name: string) returns (ok: bool)
      modifies this`faults
      ensures faults >= old(faults) && (ok <==> faults == old(faults) && name in links)
    {
      var fault := Fault();
      ok := !fault && name in links;
    }

    method LinkSetUp(name: string) returns (ok: bool)
      modifies this
      ensures faults >= old(faults) && (ok <==> faults == old(faults) && name in old(links))
      ensures links == if ok then old(links)[name := old(links)[name].(up := true)] else old(links)
    {
      var fault := Fault();
      ok := !fault && name in links;
      if ok { links := links[name := links[name].(up := true)]; }
    }

    method AddrAdd(name: string, a: IPNet) returns (ok: bool)
      modifies this
      ensures faults >= old(faults) && (ok <==> faults == old(faults) && name in old(links))
      ensures links ==
        if ok then old(links)[name := old(links)[name].(addresses := old(links)[name].addresses + [a])] else old(links)
    {
      var fault := Fault();
      ok := !fault && name in links;
      if ok { links := links[name := links[name].(addresses := links[name].addresses + [a])]; }
    }

    /** A route the link already has is refused. */
    method RouteAdd(name: string, r: Route) returns (ok: bool)
      modifies this
      ensures faults >= old(faults)
      ensures ok <==> faults == old(faults) && name in old(links) && r !in old(links)[name].routes
      ensures links ==
        if ok then old(links)[name := old(links)[name].(routes := old(links)[name].routes + {r})] else old(links)
    {
      var fault := Fault();
      ok := !fault && name in links && r !in links[name].routes;
      if ok { links := links[name := links[name].(routes := links[name].routes + {r})]; }
    }

    method RouteDel(name: string, r: Route) returns (ok: bool)
      modifies this
      ensures faults >= old(faults)
      ensures ok <==> faults == old(faults) && name in old(links) && r in old(links)[name].routes
      ensures links ==
        if ok then old(links)[name := old(links)[name].(routes := old(links)[name].routes - {r})] else old(links)
    {
      var fault := Fault();
      ok := !fault && name in links && r in links[name].routes;
      if ok { links := links[name := links[name].(routes := links[name].routes - {r})]; }
    }

    /** The routes of a link, in some order. */
    method RouteList(name: string) returns (ok: bool, routes: seq<Route>)
      modifies this`faults
      ensures faults >= old(faults) && (ok <==> faults == old(faults) && name in links)
      ensures ok ==> links[name].routes == set r | r in routes
      ensures forall i, j :: 0 <= i < j < |routes| ==> routes[i] != routes[j]
    {
      var fault := Fault();
      ok := !fault && name in links;
      routes := [];
      if ok {
        var rest := links[name].routes;
        while rest != {}
          invariant (set r | r in routes) + rest == links[name].routes
          invariant forall r :: r in routes ==> r !in rest
          invariant forall i, j :: 0 <= i < j < |routes| ==> routes[i] != routes[j]
        {
          var r :| r in rest;
          routes := routes + [r];
          rest := rest - {r};
        }
      }
    }
  }
}
