/**
 The allocator: the ripple-carry increment and the scan for the first free
 address of a prefix. The scan works on the 16-byte form of an address, so after
 255.255.255.255 the carry leaves the IPv4-mapped range and the scan ends.
 */
module PickIP {
  import opened Wrappers
  import opened Addresses

  datatype PickError = InvalidCIDR | DuplicateIPRequest | AddressPoolExhausted

  // ---------- the increment ----------

  /** The bytes after adding one: trailing 255s become 0 and the byte before them grows. */
  function Increment(s: seq<byte>): (r: seq<byte>)
    ensures |r| == |s|
  {
    if s == [] then []
    else
      var n := |s| - 1;
      if s[n] == 255 then Increment(s[..n]) + [0] else s[..n] + [s[n] + 1]
  }

  /** Increment is addition modulo the number of values the bytes can hold. */
  lemma {:induction false} IncrementIsAddition(s: seq<byte>)
    ensures Value(Increment(s)) == if Value(s) + 1 == Pow256(|s|) then 0 else Value(s) + 1
    ensures Value(Increment(s)) == (Value(s) + 1) % Pow256(|s|)
  {
    if s != [] {
      var n := |s| - 1;
      IncrementIsAddition(s[..n]);
      assert Increment(s)[..n] == if s[n] == 255 then Increment(s[..n]) else s[..n];
    }
    SmallMod(Value(s) + 1, Pow256(|s|));
  }

  lemma SmallMod(x: nat, m: nat)
    requires m > 0 && x <= m
    ensures x % m == if x == m then 0 else x
  {
  }

  function Zeros(n: nat): (z: seq<byte>)
    ensures |z| == n
  {
    seq(n, _ => 0)
  }

  /** A suffix of 255s turns into zeros, and the part before it is incremented. */
  lemma {:induction false} CarrySuffix(s: seq<byte>, j: nat)
    requires j <= |s| && forall k :: j <= k < |s| ==> s[k] == 255
    ensures Increment(s) == Increment(s[..j]) + Zeros(|s| - j)
  {
    if j == |s| {
      assert s[..j] == s;
    } else {
      var n := |s| - 1;
      CarrySuffix(s[..n], j);
      assert s[..n][..j] == s[..j];
      assert Zeros(|s| - j) == Zeros(n - j) + [0];
    }
  }

  method Inc(ip: array<byte>)
    modifies ip
    ensures ip[..] == Increment(old(ip[..]))
    ensures Value(ip[..]) == (Value(old(ip[..])) + 1) % Pow256(ip.Length)
  {
    ghost var was := ip[..];
    var j := ip.Length - 1;
    while j >= 0
      invariant -1 <= j < ip.Length
      invariant forall k :: 0 <= k <= j ==> ip[k] == was[k]
      invariant forall k :: j < k < ip.Length ==> was[k] == 255 && ip[k] == 0
    {
      ip[j] := if ip[j] == 255 then 0 else ip[j] + 1;
      if ip[j] > 0 {
        break;
      }
      j := j - 1;
    }
    Rippled(was, ip[..], j + 1);
    IncrementIsAddition(was);
  }

  /** What the loop leaves: a zeroed suffix of 255s, the byte before it one larger, the rest untouched. */
  lemma Rippled(was: seq<byte>, now: seq<byte>, j: nat)
    requires |now| == |was| && j <= |was|
    requires forall k :: j <= k < |was| ==> was[k] == 255 && now[k] == 0
    requires forall k :: 0 <= k < j - 1 ==> now[k] == was[k]
    requires j > 0 ==> was[j - 1] < 255 && now[j - 1] == was[j - 1] + 1
    ensures now == Increment(was)
  {
    CarrySuffix(was, j);
    assert now[j..] == Zeros(|was| - j);
    assert now == now[..j] + now[j..];
    if j > 0 {
      assert was[..j][..j - 1] == was[..j - 1];
      assert now[..j] == was[..j - 1] + [was[j - 1] + 1] == Increment(was[..j]);
    }
  }

  // ---------- the scan ----------

  /** The first address from a upward that is in the prefix and not taken, as long as the prefix lasts. */
  function Scan(c: Cidr, a: nat, taken: set<string>): (r: Option<nat>)
    requires c.Valid()
    ensures r.Some? ==> a <= r.value < IPV4_SPACE
    decreases IPV4_SPACE - a
  {
    if a >= IPV4_SPACE || !InNet(c, a) then None
    else if Text(a) in taken then Scan(c, a + 1, taken)
    else Some(a)
  }

  /** What FirstFreeHost returns for a parsed prefix; a request is given by its text. */
  function PickFrom(c: Cidr, taken: set<string>, request: Option<string>): Result<string, PickError>
    requires c.Valid()
  {
    if request.Some? then
      if request.value in taken then Err(DuplicateIPRequest) else Ok(request.value)
    else match FirstText(c, taken)
      case None => Err(AddressPoolExhausted)
      case Some(t) => Ok(t)
  }

  function PickHost(cidr: string, taken: set<string>, request: Option<string>): Result<string, PickError> {
    match ParseCIDR(cidr)
    case None => Err(InvalidCIDR)
    case Some(c) => PickFrom(c, taken, request)
  }

  /** The least free address, or exhaustion when there is none. */
  ghost predicate LeastFree(c: Cidr, taken: set<string>, r: Result<string, PickError>)
    requires c.Valid()
  {
    match r
    case Ok(t) => exists a :: Free(c, taken, a) && t == Text(a) && forall k :: Free(c, taken, k) ==> a <= k
    case Err(e) => e == AddressPoolExhausted && forall k :: !Free(c, taken, k)
  }

  /** What has to be returned: a requested address itself unless it is taken, else the least free one. */
  ghost predicate RightHost(cidr: string, taken: set<string>, request: Option<string>, r: Result<string, PickError>) {
    match ParseCIDR(cidr)
    case None => r == Err(InvalidCIDR)
    case Some(c) =>
      if request.None? then LeastFree(c, taken, r)
      else if request.value in taken then r == Err(DuplicateIPRequest)
      else r == Ok(request.value)
  }

  lemma PickHostExactly(cidr: string, taken: set<string>, request: Option<string>)
    ensures RightHost(cidr, taken, request, PickHost(cidr, taken, request))
  {
    hide ParseCIDR, LeastFree;
    if ParseCIDR(cidr).Some? && request.None? {
      FirstFreeHostExact(ParseCIDR(cidr).value, taken);
    }
  }

  /** The texts a Go map of booleans answers true for. */
  function Used(inUse: map<string, bool>): set<string> {
    set t | t in inUse && inUse[t]
  }

  method FirstFreeHost(cidr: string, inUse: map<string, bool>, request: Option<string>)
    returns (r: Result<string, PickError>)
    ensures r == PickHost(cidr, Used(inUse), request)
    ensures RightHost(cidr, Used(inUse), request, r)
  {
    hide ParseCIDR, RightHost, FirstText;
    PickHostExactly(cidr, Used(inUse), request);
    var parsed := ParseCIDR(cidr);
    if parsed.None? {
      return Err(InvalidCIDR);
    }
    var c := parsed.value;
    if request.Some? && !(request.value in inUse && inUse[request.value]) {
      return Ok(request.value);
    } else if request.Some? {
      return Err(DuplicateIPRequest);
    }

    var first := ScanBytes(c, inUse);
    r := if first.None? then Err(AddressPoolExhausted) else Ok(first.value);
  }

  /** The loop of FirstFreeHost over the sixteen bytes of the address. */
  method ScanBytes(c: Cidr, inUse: map<string, bool>) returns (r: Option<string>)
    requires c.Valid()
    ensures r == FirstText(c, Used(inUse))
  {
    hide Text, Scan, ScanFinds, FirstText, InNet, At, Increment;
    ghost var taken := Used(inUse);
    ghost var found := FirstText(c, taken);
    var ip := MappedArray(c.written);
    IncAt(ip, c.written);
    ghost var a := c.written + 1;
    var contained := IsContained(c, ip, a);
    while contained
      invariant a <= IPV4_SPACE && At(ip[..], a)
      invariant contained <==> a < IPV4_SPACE && InNet(c, a)
      invariant ScanFinds(c, a, taken, found)
      decreases IPV4_SPACE - a
    {
      ScanTurn(c, a, taken, found);
      var text := IPString(ip, a);
      if !(text in inUse && inUse[text]) {
        return Some(text);
      }
      assert text in taken;
      IncAt(ip, a);
      a := a + 1;
      contained := IsContained(c, ip, a);
    }
    ScanTurn(c, a, taken, found);
    return None;
  }

  /** Scanning from a onward finds the given text, or nothing when there is none. */
  ghost predicate ScanFinds(c: Cidr, a: nat, taken: set<string>, found: Option<string>)
    requires c.Valid()
  {
    var r := Scan(c, a, taken);
    found == if r.None? then None else Some(Text(r.value))
  }

  function FirstText(c: Cidr, taken: set<string>): (r: Option<string>)
    requires c.Valid()
    ensures ScanFinds(c, c.written + 1, taken, r)
  {
    match Scan(c, c.written + 1, taken)
    case None => None
    case Some(a) => Some(Text(a))
  }

  /** One turn of the loop: out of the prefix, at a free address, or one address further. */
  lemma ScanTurn(c: Cidr, a: nat, taken: set<string>, found: Option<string>)
    requires c.Valid() && a <= IPV4_SPACE && ScanFinds(c, a, taken, found)
    ensures a == IPV4_SPACE || !InNet(c, a) ==> found == None
    ensures a < IPV4_SPACE && InNet(c, a) && Text(a) !in taken ==> found == Some(Text(a))
    ensures a < IPV4_SPACE && InNet(c, a) && Text(a) in taken ==> ScanFinds(c, a + 1, taken, found)
  {
  }

  /** The sixteen bytes hold the IPv4 address a, or the value just past 255.255.255.255. */
  ghost predicate At(ip: seq<byte>, a: nat) {
    |ip| == 16 && Value(ip) == MAPPED_BASE + a
  }

  lemma IncrementAt(ip: seq<byte>, a: nat)
    requires At(ip, a) && a < IPV4_SPACE
    ensures At(Increment(ip), a + 1)
  {
    Pow256Sixteen();
    IncrementIsAddition(ip);
  }

  /** Inc on an IPv4 address: one address further. */
  method IncAt(ip: array<byte>, ghost a: nat)
    requires At(ip[..], a) && a < IPV4_SPACE
    modifies ip
    ensures At(ip[..], a + 1)
  {
    hide At;
    IncrementAt(ip[..], a);
    Inc(ip);
  }

  /** The address ParseCIDR returns, in a fresh 16-byte slice. */
  method MappedArray(a: nat) returns (ip: array<byte>)
    requires a < IPV4_SPACE
    ensures fresh(ip) && ip[..] == Mapped(a) && At(ip[..], a)
  {
    var written := Mapped(a);
    ip := new byte[16](i requires 0 <= i < 16 => written[i]);
    assert ip[..] == written;
    assert written[..12] == MAPPED_PREFIX && written[12..] == QuadOf(a);
    MappedValues(written);
    QuadRoundTrip(a);
  }

  /** IPNet.Contains on the slice: false as soon as the carry has left the mapped range. */
  method IsContained(c: Cidr, ip: array<byte>, ghost a: nat) returns (r: bool)
    requires c.Valid() && At(ip[..], a)
    ensures r <==> a < IPV4_SPACE && InNet(c, a)
  {
    MappedValues(ip[..]);
    r := Contains(c, ip[..]);
  }

  /** net.IP.String on the slice. */
  method IPString(ip: array<byte>, ghost a: nat) returns (t: string)
    requires a < IPV4_SPACE && At(ip[..], a)
    ensures t == Text(a)
  {
    MappedValues(ip[..]);
    ValueRoundTrip(To4(ip[..]).value);
    t := Dotted(To4(ip[..]).value);
  }

  // ---------- what the scan finds ----------

  /** An address FirstFreeHost may hand out: above the written one, in the prefix, not taken. */
  ghost predicate Free(c: Cidr, taken: set<string>, a: nat)
    requires c.Valid()
  {
    c.written < a < IPV4_SPACE && InNet(c, a) && Text(a) !in taken
  }

  lemma {:induction false} ScanIsFirst(c: Cidr, a: nat, taken: set<string>)
    requires c.Valid() && First(c) <= a <= IPV4_SPACE
    ensures var r := Scan(c, a, taken);
      && (r.Some? ==> InNet(c, r.value) && Text(r.value) !in taken)
      && forall k :: a <= k < (if r.Some? then r.value else IPV4_SPACE) && InNet(c, k) ==> Text(k) in taken
    decreases IPV4_SPACE - a
  {
    hide Text;
    if a < IPV4_SPACE {
      if InNet(c, a) && Text(a) in taken { ScanIsFirst(c, a + 1, taken); }
    }
  }

  /** Without a request the result is the least free address, and exhaustion means there is none. */
  lemma FirstFreeHostExact(c: Cidr, taken: set<string>)
    requires c.Valid()
    ensures LeastFree(c, taken, PickFrom(c, taken, None))
  {
    hide Text;
    WrittenInNet(c);
    ScanIsFirst(c, c.written + 1, taken);
    var r := Scan(c, c.written + 1, taken);
    if r.Some? { assert Free(c, taken, r.value); }
  }

  lemma {:induction false} ScanIgnoresLower(c: Cidr, a: nat, taken: set<string>, k: nat)
    requires c.Valid() && k < a && k < IPV4_SPACE
    ensures Scan(c, a, taken) == Scan(c, a, taken - {Text(k)})
    decreases IPV4_SPACE - a
  {
    hide Text;
    if a < IPV4_SPACE && InNet(c, a) {
      if Text(a) == Text(k) { TextInjective(a, k); }
      ScanIgnoresLower(c, a + 1, taken, k);
    }
  }

  /** The scan passes over at most as many addresses as are taken. */
  lemma {:induction false} ScanSkips(c: Cidr, a: nat, taken: set<string>)
    requires c.Valid() && First(c) <= a <= Last(c) + 1
    ensures match Scan(c, a, taken)
      case Some(b) => b - a <= |taken|
      case None => Last(c) + 1 - a <= |taken|
    decreases IPV4_SPACE - a
  {
    hide Text, First, Size;
    LastInSpace(c);
    if a < IPV4_SPACE {
      if InNet(c, a) && Text(a) in taken {
        ScanIgnoresLower(c, a + 1, taken, a);
        ScanSkips(c, a + 1, taken - {Text(a)});
      }
    }
  }

  /** Fewer taken addresses than lie above the written one: the scan succeeds. */
  lemma PoolNotExhausted(c: Cidr, taken: set<string>)
    requires c.Valid() && |taken| < Last(c) - c.written
    ensures PickFrom(c, taken, None).Ok?
  {
    WrittenInNet(c);
    ScanSkips(c, c.written + 1, taken);
  }

  // ---------- capacity ----------

  /** The text of some address of the prefix. */
  ghost predicate TextInNet(c: Cidr, t: string)
    requires c.Valid()
  {
    exists a: nat :: a < IPV4_SPACE && InNet(c, a) && t == Text(a)
  }

  lemma TextOf(c: Cidr, a: nat)
    requires c.Valid() && a < IPV4_SPACE && InNet(c, a)
    ensures TextInNet(c, Text(a))
  {
  }

  lemma TextParses(c: Cidr, t: string)
    requires c.Valid() && TextInNet(c, t)
    ensures ParseIPv4(t).Some? && t == Dotted(ParseIPv4(t).value) && InNet(c, Value(ParseIPv4(t).value))
  {
    hide Dotted, ParseIPv4;
    var a: nat :| a < IPV4_SPACE && InNet(c, a) && t == Text(a);
    ParseDotted(QuadOf(a));
    QuadRoundTrip(a);
  }

  ghost function TextsFrom(a: nat, n: nat): set<string>
    requires a + n <= IPV4_SPACE
    decreases n
  {
    if n == 0 then {} else {Text(a)} + TextsFrom(a + 1, n - 1)
  }

  lemma {:induction false} TextsFromAll(a: nat, n: nat)
    requires a + n <= IPV4_SPACE
    ensures |TextsFrom(a, n)| <= n
    ensures forall k :: a <= k < a + n ==> Text(k) in TextsFrom(a, n)
    decreases n
  {
    hide Text;
    if n > 0 { TextsFromAll(a + 1, n - 1); }
  }

  lemma SubsetSize<T>(s: set<T>, t: set<T>)
    requires s <= t
    ensures |s| <= |t|
  {
    assert t == s + (t - s);
  }

  /** A prefix has room for Size distinct texts. */
  lemma Capacity(c: Cidr, texts: set<string>)
    requires c.Valid() && forall t :: t in texts ==> TextInNet(c, t)
    ensures |texts| <= Size(c)
  {
    hide Text;
    LastInSpace(c);
    var all := TextsFrom(First(c), Size(c));
    TextsFromAll(First(c), Size(c));
    forall t | t in texts ensures t in all {
      var a: nat :| a < IPV4_SPACE && InNet(c, a) && t == Text(a);
    }
    SubsetSize(texts, all);
  }

  /** Every text handed out is new and belongs to the prefix, given that a requested one does. */
  lemma PickedInNet(c: Cidr, taken: set<string>, request: Option<string>)
    requires c.Valid() && PickFrom(c, taken, request).Ok?
    requires request.Some? ==> TextInNet(c, request.value)
    ensures TextInNet(c, PickFrom(c, taken, request).value)
    ensures PickFrom(c, taken, request).value !in taken
  {
    hide Text;
    if request.None? {
      WrittenInNet(c);
      ScanIsFirst(c, c.written + 1, taken);
      TextOf(c, Scan(c, c.written + 1, taken).value);
    }
  }
}
