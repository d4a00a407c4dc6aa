/** The DNS server: an index from pod addresses to overlay addresses, rebuilt from every status it reads. */
module Resolver {
  import opened Wrappers
  import opened Addresses
  import opened PickIP
  import opened Api
  import opened Cluster
  import opened Runs

  /** ip2int on four bytes. */
  function Ip2Int(ip: Quad): nat {
    Value(ip)
  }

  lemma Ip2IntInjective(a: Quad, b: Quad)
    requires Ip2Int(a) == Ip2Int(b)
    ensures a == b
  {
    ValueInjective(a, b);
  }

  datatype NetworkCache = NetworkCache(services: map<string, bool>, ipCache: map<nat, Quad>)

  /** What a Get of the network brings. */
  datatype Fetch = Found(nw: Network) | Missing | Broken

  // ---------- the index and the scan it stands for ----------

  /** The index after these allocations; a later one overwrites an earlier one with the same pod address. */
  function Index(l: seq<Allocation>): map<nat, Quad> {
    if l == [] then map[]
    else
      var n := |l| - 1;
      var pod, tunnel := ParseIPv4(l[n].podIP), ParseIPv4(l[n].ip);
      if pod.Some? && tunnel.Some? then Index(l[..n])[Ip2Int(pod.value) := tunnel.value] else Index(l[..n])
  }

  /** The overlay address of the last allocation with this pod address, both addresses being IPv4. */
  function LastMatch(l: seq<Allocation>, pod: Quad): Option<Quad> {
    if l == [] then None
    else
      var n := |l| - 1;
      if ParseIPv4(l[n].podIP) == Some(pod) && ParseIPv4(l[n].ip).Some? then ParseIPv4(l[n].ip)
      else LastMatch(l[..n], pod)
  }

  function Lookup(m: map<nat, Quad>, ip: Quad): Option<Quad> {
    if Ip2Int(ip) in m then Some(m[Ip2Int(ip)]) else None
  }

  /** Looking up the index is the same as scanning the list. */
  lemma {:induction false} IndexIsScan(l: seq<Allocation>, pod: Quad)
    ensures Lookup(Index(l), pod) == LastMatch(l, pod)
  {
    hide ParseIPv4, Ip2Int;
    if l != [] {
      var n := |l| - 1;
      IndexIsScan(l[..n], pod);
      var p := ParseIPv4(l[n].podIP);
      if p.Some? && Ip2Int(p.value) == Ip2Int(pod) { Ip2IntInjective(p.value, pod); }
    }
  }

  lemma {:induction false} LastMatchIn(l: seq<Allocation>, pod: Quad)
    ensures match LastMatch(l, pod)
      case Some(ip) => exists a :: a in l && ParseIPv4(a.podIP) == Some(pod) && ParseIPv4(a.ip) == Some(ip)
      case None => forall a :: a in l && ParseIPv4(a.podIP) == Some(pod) ==> ParseIPv4(a.ip) == None
  {
    hide ParseIPv4;
    if l != [] {
      var n := |l| - 1;
      LastMatchIn(l[..n], pod);
      assert l == l[..n] + [l[n]];
    }
  }

  /** An entry at this place answers for the pod address. */
  ghost predicate AnswersAt(l: seq<Allocation>, i: nat, pod: Quad) {
    i < |l| && ParseIPv4(l[i].podIP) == Some(pod) && ParseIPv4(l[i].ip).Some?
  }

  /** The scan finds the last entry that answers. */
  lemma {:induction false} LastMatchExactly(l: seq<Allocation>, pod: Quad)
    ensures match LastMatch(l, pod)
      case Some(ip) => exists i: nat ::
        AnswersAt(l, i, pod) && ParseIPv4(l[i].ip) == Some(ip) && forall j: nat :: AnswersAt(l, j, pod) ==> j <= i
      case None => forall j: nat :: !AnswersAt(l, j, pod)
  {
    hide ParseIPv4;
    if l != [] {
      var n := |l| - 1;
      LastMatchExactly(l[..n], pod);
      forall j: nat | j < n ensures AnswersAt(l, j, pod) <==> AnswersAt(l[..n], j, pod) {}
      if AnswersAt(l, n, pod) {
        assert LastMatch(l, pod) == ParseIPv4(l[n].ip);
      } else if LastMatch(l[..n], pod).Some? {
        var i: nat :| AnswersAt(l[..n], i, pod) && ParseIPv4(l[i].ip) == LastMatch(l[..n], pod)
          && forall j: nat :: AnswersAt(l[..n], j, pod) ==> j <= i;
        assert AnswersAt(l, i, pod);
      }
    }
  }

  function CacheOf(nw: Network): NetworkCache {
    NetworkCache(map s | s in nw.spec.serviceNames :: true, Index(nw.status.allocations))
  }

  /** The caches after one reconcile of the named network. */
  function CacheAfter(cache: map<string, NetworkCache>, n: string, fetch: Fetch): map<string, NetworkCache> {
    match fetch
    case Found(nw) => cache[n := CacheOf(nw)]
    case Missing => cache - {n}
    case Broken => cache
  }

  /** The caches after a sequence of reconciles. */
  function CacheRun(fetches: seq<(string, Fetch)>): map<string, NetworkCache> {
    if fetches == [] then map[]
    else
      var i := |fetches| - 1;
      CacheAfter(CacheRun(fetches[..i]), fetches[i].0, fetches[i].1)
  }

  /** The network as it was last read, unless it was last found missing. */
  function LastRead(fetches: seq<(string, Fetch)>, n: string): Option<Network> {
    if fetches == [] then None
    else
      var i := |fetches| - 1;
      if fetches[i].0 == n && fetches[i].1.Found? then Some(fetches[i].1.nw)
      else if fetches[i].0 == n && fetches[i].1.Missing? then None
      else LastRead(fetches[..i], n)
  }

  /** After any reconciles, the cache of a network is that of its last reading, and its index answers like a scan. */
  lemma {:induction false} CacheFollowsLastRead(fetches: seq<(string, Fetch)>, n: string, pod: Quad)
    ensures n in CacheRun(fetches) <==> LastRead(fetches, n).Some?
    ensures n in CacheRun(fetches) ==>
      var nw := LastRead(fetches, n).value;
      && CacheRun(fetches)[n] == CacheOf(nw)
      && Lookup(CacheRun(fetches)[n].ipCache, pod) == LastMatch(nw.status.allocations, pod)
  {
    hide CacheOf, Lookup, LastMatch;
    if fetches != [] {
      var i := |fetches| - 1;
      CacheFollowsLastRead(fetches[..i], n, pod);
      if fetches[i].1.Found? { CacheOfIndex(fetches[i].1.nw, pod); }
    }
  }

  lemma CacheOfIndex(nw: Network, pod: Quad)
    ensures Lookup(CacheOf(nw).ipCache, pod) == LastMatch(nw.status.allocations, pod)
  {
    IndexIsScan(nw.status.allocations, pod);
  }

  // ---------- requests ----------

  datatype Rcode = Success | NameError | ServerFailure

  datatype Answer = A(name: string, ttl: nat, ip: Quad)

  datatype Reply = Reply(rcode: Rcode, answers: seq<Answer>)

  /** strings.Split on one character. */
  function Split(s: string, sep: char): (parts: seq<string>)
    ensures |parts| > 0
  {
    var i := IndexOf(s, sep);
    if i == |s| then [s] else [s[..i]] + Split(s[i + 1..], sep)
  }

  predicate HasSuffix(s: string, suffix: string) {
    |suffix| <= |s| && s[|s| - |suffix|..] == suffix
  }

  function TrimSuffix(s: string, suffix: string): string {
    if HasSuffix(s, suffix) then s[..|s| - |suffix|] else s
  }

  lemma TrimmedExactly(s: string, suffix: string, t: string)
    ensures TrimSuffix(s, suffix) == t <==> s == t + suffix || (s == t && !HasSuffix(s, suffix))
  {
    if HasSuffix(s, suffix) {
      assert s == s[..|s| - |suffix|] + suffix;
    }
    if s == t + suffix {
      assert s[|s| - |suffix|..] == suffix && s[..|s| - |suffix|] == t;
    }
  }

  lemma SplitAlone(s: string, sep: char, a: string)
    ensures Split(s, sep) == [a] <==> s == a && sep !in a
  {
    var i := IndexOf(s, sep);
    if i < |s| { assert sep in s; }
  }

  /** A text splits in two parts exactly if it is the two with one separator between them. */
  lemma SplitInTwo(s: string, sep: char, a: string, b: string)
    ensures Split(s, sep) == [a, b] <==> s == a + [sep] + b && sep !in a && sep !in b
  {
    var i := IndexOf(s, sep);
    if Split(s, sep) == [a, b] {
      assert i < |s| && Split(s, sep)[0] == s[..i] && Split(s, sep)[1..] == Split(s[i + 1..], sep);
      assert [a, b][0] == a && [a, b][1..] == [b];
      SplitAlone(s[i + 1..], sep, b);
      assert s == s[..i] + [s[i]] + s[i + 1..];
    }
    if s == a + [sep] + b && sep !in a && sep !in b {
      assert s[|a|] == sep && forall k :: 0 <= k < |a| ==> s[k] == a[k];
      assert i == |a| && s[..i] == a && s[i + 1..] == b;
      SplitAlone(b, sep, b);
    }
  }

  /** The answers for the resolved addresses, in order; each must be an IPv4 address in the index. */
  function AnswersFor(ips: seq<seq<byte>>, m: map<nat, Quad>, name: string): seq<Answer> {
    if ips == [] then []
    else
      var n := |ips| - 1;
      var v4 := To4(ips[n]);
      var target := if v4.Some? then Lookup(m, v4.value) else None;
      AnswersFor(ips[..n], m, name) + (if target.Some? then [A(name, 60, target.value)] else [])
  }

  /** An answer carries the indexed address of one of the resolved addresses, and every indexed one is answered. */
  lemma {:induction false} AnswersExact(ips: seq<seq<byte>>, m: map<nat, Quad>, name: string, ip: Quad)
    ensures A(name, 60, ip) in AnswersFor(ips, m, name) <==>
      exists r :: r in ips && To4(r).Some? && Lookup(m, To4(r).value) == Some(ip)
    ensures forall a :: a in AnswersFor(ips, m, name) ==> a.name == name && a.ttl == 60
  {
    hide To4, Lookup;
    if ips != [] {
      var n := |ips| - 1;
      AnswersExact(ips[..n], m, name, ip);
      assert ips == ips[..n] + [ips[n]];
    }
  }

  /** The answers come in the order of the addresses, each address answered by itself. */
  lemma {:induction false} AnswersInOrder(a: seq<seq<byte>>, b: seq<seq<byte>>, m: map<nat, Quad>, name: string)
    ensures AnswersFor(a + b, m, name) == AnswersFor(a, m, name) + AnswersFor(b, m, name)
    ensures |AnswersFor(a, m, name)| <= |a|
  {
    hide To4, Lookup;
    if b == [] {
      assert a + b == a;
      if a != [] { AnswersInOrder(a[..|a| - 1], [], m, name); }
    } else {
      var n := |b| - 1;
      assert (a + b)[..|a + b| - 1] == a + b[..n];
      AnswersInOrder(a, b[..n], m, name);
    }
  }

  class DNSReconciler {
    const namespace: string
    const zone: string
    const clusterDomain: string
    var cache: map<string, NetworkCache>
    ghost var fetches: seq<(string, Fetch)>

    ghost predicate Valid()
      reads this
    {
      cache == CacheRun(fetches)
    }

    constructor (namespace: string, zone: string, clusterDomain: string)
      ensures Valid() && fetches == [] && this.zone == zone && this.namespace == namespace
      ensures this.clusterDomain == if clusterDomain == "" then "cluster.local" else clusterDomain
    {
      this.namespace := namespace;
      this.zone := zone;
      this.clusterDomain := if clusterDomain == "" then "cluster.local" else clusterDomain;
      cache := map[];
      fetches := [];
    }

    method Reconcile(n: string, fetch: Fetch) returns (err: bool)
      requires Valid()
      modifies this
      ensures Valid() && fetches == old(fetches) + [(n, fetch)] && (err <==> fetch.Broken?)
      ensures cache == CacheAfter(old(cache), n, fetch)
    {
      fetches := fetches + [(n, fetch)];
      assert fetches[..|fetches| - 1] == old(fetches);
      match fetch {
        case Missing =>
          cache := cache - {n};
          return false;
        case Broken =>
          return true;
        case Found(nw) =>
          var nc := BuildCache(nw);
          cache := cache[n := nc];
          return false;
      }
    }

    method BuildCache(nw: Network) returns (nc: NetworkCache)
      ensures nc == CacheOf(nw)
    {
      hide ParseIPv4, Ip2Int;
      var ipCache: map<nat, Quad> := map[];
      var l := nw.status.allocations;
      for i := 0 to |l|
        invariant ipCache == Index(l[..i])
      {
        assert l[..i + 1][..i] == l[..i];
        var podIp, tunnelIp := ParseIPv4(l[i].podIP), ParseIPv4(l[i].ip);
        if podIp.Some? && tunnelIp.Some? {
          ipCache := ipCache[Ip2Int(podIp.value) := tunnelIp.value];
        }
      }
      assert l[..|l|] == l;
      var services: map<string, bool> := map[];
      var names := nw.spec.serviceNames;
      for i := 0 to |names|
        invariant services == map s | s in names[..i] :: true
      {
        services := services[names[i] := true];
        assert names[..i + 1] == names[..i] + [names[i]];
      }
      assert names[..|names|] == names;
      nc := NetworkCache(services, ipCache);
    }

    /** The network and the service a name asks for, if it has the right form. */
    function Asked(name: string): Option<(string, string)> {
      var parts := Split(TrimSuffix(name, "." + zone), '.');
      if |parts| == 2 then Some((parts[1], parts[0])) else None
    }

    /** A name asks for a service of a network iff it is the two labels, with the zone behind them or without it. */
    lemma AskedExactly(name: string, nw: string, svc: string)
      ensures Asked(name) == Some((nw, svc)) <==>
        && '.' !in nw && '.' !in svc
        && (|| name == svc + "." + nw + ("." + zone)
            || (name == svc + "." + nw && !HasSuffix(name, "." + zone)))
    {
      var t := svc + "." + nw;
      TrimmedExactly(name, "." + zone, t);
      SplitInTwo(TrimSuffix(name, "." + zone), '.', svc, nw);
    }

    function ServiceName(svc: string): string {
      svc + "." + namespace + ".svc." + clusterDomain
    }

    /** What the reply has to be; lookup stands for the resolver of the host. */
    ghost predicate Answered(name: string, lookup: string -> Option<seq<seq<byte>>>, reply: Reply)
      reads this
    {
      && (reply.rcode == Success <==> reply.answers != [])
      && match Asked(name)
         case None => reply == Reply(NameError, [])
         case Some((nw, svc)) =>
           if nw !in cache || svc !in cache[nw].services || !cache[nw].services[svc] then reply == Reply(NameError, [])
           else match lookup(ServiceName(svc))
             case None => reply == Reply(ServerFailure, [])
             case Some(ips) =>
               && reply.answers == AnswersFor(ips, cache[nw].ipCache, name)
               && (reply.answers == [] ==> reply.rcode == NameError)
    }

    /** processDnsRequest. */
    method ProcessDnsRequest(name: string, lookup: string -> Option<seq<seq<byte>>>) returns (reply: Reply)
      ensures Answered(name, lookup, reply)
    {
      var parts := Split(TrimSuffix(name, "." + zone), '.');
      if |parts| != 2 {
        return Reply(NameError, []);
      }
      var svcName, nwName := parts[0], parts[1];
      if nwName !in cache {
        return Reply(NameError, []);
      }
      var nw := cache[nwName];
      if svcName !in nw.services || !nw.services[svcName] {
        return Reply(NameError, []);
      }
      var res := lookup(ServiceName(svcName));
      if res.None? {
        return Reply(ServerFailure, []);
      }
      var ips := res.value;
      var answers: seq<Answer> := [];
      for i := 0 to |ips|
        invariant answers == AnswersFor(ips[..i], nw.ipCache, name)
      {
        assert ips[..i + 1][..i] == ips[..i];
        var v4 := To4(ips[i]);
        if v4.None? {
          continue;
        }
        if Ip2Int(v4.value) in nw.ipCache {
          answers := answers + [A(name, 60, nw.ipCache[Ip2Int(v4.value)])];
        }
      }
      assert ips[..|ips|] == ips;
      return Reply(if |answers| > 0 then Success else NameError, answers);
    }
  }

  // ---------- end to end ----------

  /** An overlay address of the network whose pod address is the given one. */
  ghost predicate Overlay(nw: Network, pod: Quad, ip: Quad) {
    exists a :: a in nw.status.allocations && ParseIPv4(a.podIP) == Some(pod) && a.ip == Dotted(ip)
  }

  /** The address belongs to the pool of the network. */
  ghost predicate InPool(nw: Network, ip: Quad) {
    var c := ParseCIDR(nw.spec.allocatableCIDR);
    c.Some? && InNet(c.value, Value(ip))
  }

  /**
   When the last reading of a network was a store of the run, a pod address is in the index
   exactly if some pod with it is allocated, and what is answered is the overlay address of
   such an allocation, inside the pool.
   */
  lemma AnswersAreAllocated(states: seq<State>, events: seq<Event>, k: nat, fetches: seq<(string, Fetch)>, n: string,
                            pod: Quad)
    requires Run(states, events) && k < |states| && n in Latest(states, k).networks
    requires LastRead(fetches, n) == Some(Latest(states, k).networks[n])
    ensures n in CacheRun(fetches)
    ensures var nw := Latest(states, k).networks[n];
      match Lookup(CacheRun(fetches)[n].ipCache, pod)
      case Some(ip) => Overlay(nw, pod, ip) && InPool(nw, ip)
      case None => forall a :: a in nw.status.allocations ==> ParseIPv4(a.podIP) != Some(pod)
  {
    hide Dotted, ParseIPv4, ParseCIDR, TextInNet, Run, Lookup, LastMatch, CacheOf, InNet;
    AllocationsAreSafe(states, events, k, n);
    var nw := Latest(states, k).networks[n];
    var c := ParseCIDR(nw.spec.allocatableCIDR).value;
    CacheFollowsLastRead(fetches, n, pod);
    LastMatchIn(nw.status.allocations, pod);
    forall a | a in nw.status.allocations
      ensures ParseIPv4(a.ip).Some? && a.ip == Dotted(ParseIPv4(a.ip).value) && InNet(c, Value(ParseIPv4(a.ip).value))
    {
      TextParses(c, a.ip);
    }
  }

  /** The resolver of the host gives this IPv4 address for the name, among others. */
  ghost predicate ResolvesTo(lookup: string -> Option<seq<seq<byte>>>, host: string, pod: Quad) {
    var res := lookup(host);
    res.Some? && exists ip :: ip in res.value && To4(ip) == Some(pod)
  }

  /** Some pod with this address is allocated in the network. */
  ghost predicate Present(nw: Network, pod: Quad) {
    exists a :: a in nw.status.allocations && ParseIPv4(a.podIP) == Some(pod)
  }

  /** The answer is an overlay address of the network for an address the service resolves to. */
  ghost predicate TrueAnswer(nw: Network, lookup: string -> Option<seq<seq<byte>>>, host: string, a: Answer) {
    exists pod :: ResolvesTo(lookup, host, pod) && Overlay(nw, pod, a.ip) && InPool(nw, a.ip)
  }

  /**
   What a DNS client gets. If the last reading of the network that a name asks for was a store of
   the run, every answer is an overlay address, inside the pool, of an allocated pod that the
   service resolves to; and every allocated pod that a listed service resolves to is answered.
   */
  lemma RepliesAreAllocated(dns: DNSReconciler, states: seq<State>, events: seq<Event>, k: nat, n: string, svc: string,
                            name: string, lookup: string -> Option<seq<seq<byte>>>, reply: Reply)
    requires dns.Valid() && Run(states, events) && k < |states| && n in Latest(states, k).networks
    requires LastRead(dns.fetches, n) == Some(Latest(states, k).networks[n])
    requires dns.Asked(name) == Some((n, svc)) && dns.Answered(name, lookup, reply)
    ensures forall a :: a in reply.answers ==>
      && a.name == name && a.ttl == 60
      && TrueAnswer(Latest(states, k).networks[n], lookup, svc + "." + dns.namespace + ".svc." + dns.clusterDomain, a)
    ensures svc in Latest(states, k).networks[n].spec.serviceNames ==>
      forall pod ::
        && ResolvesTo(lookup, svc + "." + dns.namespace + ".svc." + dns.clusterDomain, pod)
        && Present(Latest(states, k).networks[n], pod) ==>
        && reply.rcode == Success
        && exists a :: a in reply.answers && Overlay(Latest(states, k).networks[n], pod, a.ip)
    ensures svc !in Latest(states, k).networks[n].spec.serviceNames ==> reply == Reply(NameError, [])
  {
    hide Run, ParseIPv4, Dotted, InPool, Lookup, Index, To4, Split, TrimSuffix, LastRead;
    var nw := Latest(states, k).networks[n];
    var host := dns.ServiceName(svc);
    var ip0: Quad := [0, 0, 0, 0];
    CacheFollowsLastRead(dns.fetches, n, ip0);
    var m := dns.cache[n].ipCache;
    forall a | a in reply.answers
      ensures a.name == name && a.ttl == 60 && TrueAnswer(nw, lookup, host, a)
    {
      var ips := lookup(host).value;
      AnswersExact(ips, m, name, a.ip);
      assert a == A(name, 60, a.ip);
      var r :| r in ips && To4(r).Some? && Lookup(m, To4(r).value) == Some(a.ip);
      var pod := To4(r).value;
      AnswersAreAllocated(states, events, k, dns.fetches, n, pod);
      assert ResolvesTo(lookup, host, pod);
    }
    if svc in nw.spec.serviceNames {
      forall pod | ResolvesTo(lookup, host, pod) && Present(nw, pod)
        ensures reply.rcode == Success && exists a :: a in reply.answers && Overlay(nw, pod, a.ip)
      {
        var ips := lookup(host).value;
        AnswersAreAllocated(states, events, k, dns.fetches, n, pod);
        var ip := Lookup(m, pod).value;
        AnswersExact(ips, m, name, ip);
        assert A(name, 60, ip) in reply.answers;
      }
    }
  }

  /** Names of another form, and names of networks that were not there when last read, do not exist. */
  lemma UnknownNames(dns: DNSReconciler, name: string, lookup: string -> Option<seq<seq<byte>>>, reply: Reply)
    requires dns.Valid() && dns.Answered(name, lookup, reply)
    requires dns.Asked(name).Some? ==> LastRead(dns.fetches, dns.Asked(name).value.0) == None
    ensures reply == Reply(NameError, [])
  {
    hide LastRead, Split, TrimSuffix;
    var ip0: Quad := [0, 0, 0, 0];
    if dns.Asked(name).Some? { CacheFollowsLastRead(dns.fetches, dns.Asked(name).value.0, ip0); }
  }
}
