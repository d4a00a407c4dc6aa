/** The admission webhook for overlay networks. */
module Validating {
  import opened Addresses
  import opened Api

  datatype Request = Create(spec: Spec) | Update(prior: Spec, spec: Spec)

  datatype Reason = BadPort | BadAllocatableCIDR | PortImmutable | CIDRImmutable | BadRoutableCIDR(index: nat)

  datatype Response = Allowed | Denied(reason: Reason)

  /** The position of the first text that is no CIDR, or the length of the list. */
  function FirstInvalid(cidrs: seq<string>): (i: nat)
    ensures i <= |cidrs|
  {
    if cidrs == [] || ParseCIDR(cidrs[0]).None? then 0 else 1 + FirstInvalid(cidrs[1..])
  }

  lemma {:induction false} FirstInvalidExact(cidrs: seq<string>)
    ensures var i := FirstInvalid(cidrs);
      && (i < |cidrs| ==> ParseCIDR(cidrs[i]).None?)
      && forall k :: 0 <= k < i ==> ParseCIDR(cidrs[k]).Some?
  {
    hide ParseCIDR;
    if cidrs != [] && ParseCIDR(cidrs[0]).Some? { FirstInvalidExact(cidrs[1..]); }
  }

  function Handle(request: Request): Response {
    var spec := request.spec;
    if request.Create? && (spec.port <= 0 || spec.port > 65535) then Denied(BadPort)
    else if request.Create? && ParseCIDR(spec.allocatableCIDR).None? then Denied(BadAllocatableCIDR)
    else if request.Update? && request.prior.port != spec.port then Denied(PortImmutable)
    else if request.Update? && request.prior.allocatableCIDR != spec.allocatableCIDR then Denied(CIDRImmutable)
    else
      var i := FirstInvalid(spec.routableCIDRs);
      if i < |spec.routableCIDRs| then Denied(BadRoutableCIDR(i)) else Allowed
  }

  ghost predicate RoutablesParse(spec: Spec) {
    forall t :: t in spec.routableCIDRs ==> ParseCIDR(t).Some?
  }

  ghost predicate ValidSpec(spec: Spec) {
    1 <= spec.port <= 65535 && ParseCIDR(spec.allocatableCIDR).Some? && RoutablesParse(spec)
  }

  /** The pool and the port of a network. */
  ghost predicate SamePool(a: Spec, b: Spec) {
    a.allocatableCIDR == b.allocatableCIDR && a.port == b.port
  }

  /**
   A create is accepted iff its spec is valid. An update is accepted iff it keeps the pool and the
   port and its routable prefixes parse, whether the stored spec is valid or not.
   */
  lemma HandleExact(request: Request)
    ensures Handle(request) == Allowed <==>
      match request
      case Create(spec) => ValidSpec(spec)
      case Update(prior, spec) => SamePool(prior, spec) && RoutablesParse(spec)
  {
    hide ParseCIDR;
    var cidrs := request.spec.routableCIDRs;
    FirstInvalidExact(cidrs);
    if FirstInvalid(cidrs) == |cidrs| {
      assert forall t :: t in cidrs ==> ParseCIDR(t).Some?;
    } else {
      assert cidrs[FirstInvalid(cidrs)] in cidrs;
    }
  }

  /** The checks that come before the routable prefixes. */
  ghost predicate PoolPasses(request: Request) {
    match request
    case Create(spec) => 1 <= spec.port <= 65535 && ParseCIDR(spec.allocatableCIDR).Some?
    case Update(prior, spec) => SamePool(prior, spec)
  }

  /** A denial names the first check that fails; for a routable prefix, the first one that does not parse. */
  lemma DeniedExactly(request: Request, i: nat)
    ensures Handle(request) == Denied(BadPort) <==> request.Create? && !(1 <= request.spec.port <= 65535)
    ensures Handle(request) == Denied(BadAllocatableCIDR) <==>
      request.Create? && 1 <= request.spec.port <= 65535 && ParseCIDR(request.spec.allocatableCIDR).None?
    ensures Handle(request) == Denied(PortImmutable) <==> request.Update? && request.prior.port != request.spec.port
    ensures Handle(request) == Denied(CIDRImmutable) <==>
      && request.Update? && request.prior.port == request.spec.port
      && request.prior.allocatableCIDR != request.spec.allocatableCIDR
    ensures Handle(request) == Denied(BadRoutableCIDR(i)) <==>
      && PoolPasses(request)
      && i < |request.spec.routableCIDRs| && ParseCIDR(request.spec.routableCIDRs[i]).None?
      && forall j :: 0 <= j < i ==> ParseCIDR(request.spec.routableCIDRs[j]).Some?
  {
    hide ParseCIDR;
    FirstInvalidExact(request.spec.routableCIDRs);
  }

  /** An accepted update is valid iff pool and port of the old spec were: it neither breaks nor repairs them. */
  lemma UpdateKeepsValidity(prior: Spec, spec: Spec)
    requires Handle(Update(prior, spec)) == Allowed
    ensures ValidSpec(spec) <==> 1 <= prior.port <= 65535 && ParseCIDR(prior.allocatableCIDR).Some?
    ensures ValidSpec(prior) ==> ValidSpec(spec)
  {
    hide ParseCIDR, Handle;
    HandleExact(Update(prior, spec));
  }

  /** Over any history of accepted writes every spec is valid and the pool is that of the creation. */
  lemma {:induction false} AcceptedHistory(specs: seq<Spec>, i: nat)
    requires i < |specs|
    requires Handle(Create(specs[0])) == Allowed
    requires forall k :: 0 < k < |specs| ==> Handle(Update(specs[k - 1], specs[k])) == Allowed
    ensures ValidSpec(specs[i]) && SamePool(specs[0], specs[i])
  {
    hide ParseCIDR, Handle;
    if i == 0 {
      HandleExact(Create(specs[0]));
    } else {
      AcceptedHistory(specs, i - 1);
      HandleExact(Update(specs[i - 1], specs[i]));
      UpdateKeepsValidity(specs[i - 1], specs[i]);
    }
  }
}
