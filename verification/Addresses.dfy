/**
 IPv4 addresses as the allocator handles them: byte sequences in network order,
 their values, their dotted-decimal text, and CIDR prefixes.
 */
module Addresses {
  import opened Wrappers

  newtype byte = b: int | 0 <= b < 256

  /** The four bytes of an IPv4 address, most significant first. */
  type Quad = s: seq<byte> | |s| == 4 witness [0, 0, 0, 0]

  const IPV4_SPACE: nat := 0x1_0000_0000

  /** The value of the 16-byte form of 0.0.0.0 (section 2.5.5.2 of RFC 4291). */
  const MAPPED_BASE: nat := 0xFFFF_0000_0000

  // ---------- big-endian values ----------

  function Pow256(n: nat): (p: nat)
    ensures p > 0
  {
    if n == 0 then 1 else 256 * Pow256(n - 1)
  }

  function Value(s: seq<byte>): (v: nat)
    ensures v < Pow256(|s|)
  {
    if s == [] then 0 else Value(s[..|s| - 1]) * 256 + s[|s| - 1] as nat
  }

  lemma {:induction false} ValueInjective(s: seq<byte>, t: seq<byte>)
    requires |s| == |t| && Value(s) == Value(t)
    ensures s == t
  {
    if s != [] {
      var n := |s| - 1;
      ValueInjective(s[..n], t[..n]);
      assert s == s[..n] + [s[n]] && t == t[..n] + [t[n]];
    }
  }

  lemma {:induction false} ValueOfSplit(s: seq<byte>, t: seq<byte>)
    ensures Value(s + t) == Value(s) * Pow256(|t|) + Value(t)
  {
    if t == [] {
      assert s + t == s;
    } else {
      var n := |t| - 1;
      assert (s + t)[..|s + t| - 1] == s + t[..n];
      ValueOfSplit(s, t[..n]);
      Distribute(Value(s), Pow256(n), Value(t[..n]));
    }
  }

  lemma Distribute(a: nat, p: nat, v: nat)
    ensures (a * p + v) * 256 == a * (256 * p) + v * 256
  {
  }

  /** The big-endian bytes of an IPv4 address given as a number. */
  function QuadOf(a: nat): (q: Quad)
    requires a < IPV4_SPACE
  {
    var b := a / 256;
    var c := b / 256;
    [(c / 256) as byte, (c % 256) as byte, (b % 256) as byte, (a % 256) as byte]
  }

  lemma ValueOfQuad(q: Quad)
    ensures Value(q) == ((q[0] as nat * 256 + q[1] as nat) * 256 + q[2] as nat) * 256 + q[3] as nat
    ensures Value(q) < IPV4_SPACE
  {
    assert q[..3][..2] == q[..2] && q[..2][..1] == q[..1] && q[..1][..0] == [];
    assert Value(q[..1]) == q[0] as nat;
    assert Value(q[..2]) == q[0] as nat * 256 + q[1] as nat;
    assert Value(q[..3]) == Value(q[..2]) * 256 + q[2] as nat;
  }

  lemma QuadRoundTrip(a: nat)
    requires a < IPV4_SPACE
    ensures Value(QuadOf(a)) == a
  {
    ValueOfQuad(QuadOf(a));
  }

  lemma ValueRoundTrip(q: Quad)
    ensures Value(q) < IPV4_SPACE && QuadOf(Value(q)) == q
  {
    ValueOfQuad(q);
    QuadRoundTrip(Value(q));
    ValueInjective(QuadOf(Value(q)), q);
  }

  // ---------- the 16-byte form ----------

  /** The first twelve bytes of every IPv4-mapped address. */
  const MAPPED_PREFIX: seq<byte> := [0, 0, 0, 0, 0, 0, 0, 0, 0, 0, 255, 255]

  function Mapped(a: nat): (s: seq<byte>)
    requires a < IPV4_SPACE
    ensures |s| == 16
  {
    MAPPED_PREFIX + QuadOf(a)
  }

  /** The IPv4 address inside a 4-byte or IPv4-mapped 16-byte one. */
  function To4(ip: seq<byte>): (q: Option<Quad>)
  {
    if |ip| == 4 then Some(ip)
    else if |ip| == 16 && ip[..12] == MAPPED_PREFIX then Some(ip[12..])
    else None
  }

  lemma {:induction false} ValueOfZeros(s: seq<byte>)
    requires forall i :: 0 <= i < |s| ==> s[i] == 0
    ensures Value(s) == 0
  {
    if s != [] { ValueOfZeros(s[..|s| - 1]); }
  }

  lemma ValueOfPrefix()
    ensures Value(MAPPED_PREFIX) == 0xFFFF
  {
    var z := MAPPED_PREFIX[..10];
    ValueOfZeros(z);
    assert MAPPED_PREFIX[..11][..10] == z;
    assert Value(MAPPED_PREFIX[..11]) == 255;
  }

  lemma Pow256Four()
    ensures Pow256(4) == IPV4_SPACE
  {
    assert Pow256(1) == 256 && Pow256(2) == 0x1_0000;
    assert Pow256(3) == 0x100_0000;
  }

  lemma Pow256Sixteen()
    ensures Pow256(16) > 2 * MAPPED_BASE
  {
    Pow256Four();
    assert Pow256(5) == 0x100_0000_0000 && Pow256(6) == 0x1_0000_0000_0000;
    assert Pow256(7) > 2 * MAPPED_BASE && Pow256(8) > 2 * MAPPED_BASE;
    assert Pow256(9) >= Pow256(8) && Pow256(10) >= Pow256(9) && Pow256(11) >= Pow256(10);
    assert Pow256(12) >= Pow256(11) && Pow256(13) >= Pow256(12) && Pow256(14) >= Pow256(13);
    assert Pow256(15) >= Pow256(14);
  }

  lemma ValueOfMapped(q: Quad)
    ensures Value(MAPPED_PREFIX + q) == MAPPED_BASE + Value(q) && Value(q) < IPV4_SPACE
  {
    ValueOfPrefix();
    Pow256Four();
    ValueOfSplit(MAPPED_PREFIX, q);
    ValueOfQuad(q);
  }

  /** A mapped address has its IPv4 value above MAPPED_BASE, and no other 16-byte address does. */
  lemma MappedValues(ip: seq<byte>)
    requires |ip| == 16
    ensures To4(ip).Some? <==> MAPPED_BASE <= Value(ip) < MAPPED_BASE + IPV4_SPACE
    ensures To4(ip).Some? ==> Value(ip) == MAPPED_BASE + Value(To4(ip).value)
  {
    hide Value, QuadOf;
    if To4(ip).Some? {
      ValueOfMapped(ip[12..]);
      assert ip == MAPPED_PREFIX + ip[12..];
    } else if MAPPED_BASE <= Value(ip) < MAPPED_BASE + IPV4_SPACE {
      var q := QuadOf(Value(ip) - MAPPED_BASE);
      ValueOfMapped(q);
      QuadRoundTrip(Value(ip) - MAPPED_BASE);
      assert (MAPPED_PREFIX + q)[..12] == MAPPED_PREFIX;
      ValueInjective(ip, MAPPED_PREFIX + q);
    }
  }

  // ---------- decimal text ----------

  predicate IsDigit(c: char) {
    '0' <= c <= '9'
  }

  function DigitValue(c: char): nat
    requires IsDigit(c)
  {
    c as int - '0' as int
  }

  function Decimal(n: nat): (s: string)
    ensures |s| > 0
    ensures forall i :: 0 <= i < |s| ==> IsDigit(s[i])
    ensures n < 10 ==> |s| == 1
    ensures n >= 10 ==> s[0] != '0'
    ensures n > 0 ==> s[0] != '0'
  {
    if n < 10 then ['0' + n as char] else Decimal(n / 10) + ['0' + (n % 10) as char]
  }

  function DecimalValue(s: string): nat
    requires forall i :: 0 <= i < |s| ==> IsDigit(s[i])
  {
    if s == [] then 0 else DecimalValue(s[..|s| - 1]) * 10 + DigitValue(s[|s| - 1])
  }

  lemma {:induction false} DecimalRoundTrip(n: nat)
    ensures DecimalValue(Decimal(n)) == n
  {
    var s := Decimal(n);
    if n < 10 {
      assert s[..0] == [];
    } else {
      DecimalRoundTrip(n / 10);
      assert s[..|s| - 1] == Decimal(n / 10);
    }
  }

  /** How many of the first characters are digits. */
  function LeadingDigits(s: string): (c: nat)
    ensures c <= |s|
    ensures forall i :: 0 <= i < c ==> IsDigit(s[i])
  {
    if s != [] && IsDigit(s[0]) then 1 + LeadingDigits(s[1..]) else 0
  }

  lemma {:induction false} LeadingDigitsOf(t: string, rest: string)
    requires forall i :: 0 <= i < |t| ==> IsDigit(t[i])
    requires rest == [] || !IsDigit(rest[0])
    ensures LeadingDigits(t + rest) == |t|
  {
    if t == [] {
      assert t + rest == rest;
    } else {
      assert (t + rest)[1..] == t[1..] + rest;
      LeadingDigitsOf(t[1..], rest);
    }
  }

  // ---------- dotted-decimal text ----------

  function DottedFrom(q: Quad, i: nat): string
    requires i <= 4
    decreases 4 - i
  {
    if i == 4 then ""
    else (if i > 0 then "." else "") + Decimal(q[i] as nat) + DottedFrom(q, i + 1)
  }

  /** What net.IP.String prints for an IPv4 address. */
  function Dotted(q: Quad): string {
    DottedFrom(q, 0)
  }

  /** The text of the IPv4 address with the given value. */
  function Text(a: nat): string
    requires a < IPV4_SPACE
  {
    Dotted(QuadOf(a))
  }

  function ParseFrom(s: string, i: nat): (r: Option<seq<byte>>)
    requires i <= 4
    ensures r.Some? ==> |r.value| == 4 - i
    decreases 4 - i
  {
    if i == 4 then (if s == [] then Some([]) else None)
    else if s == [] || (i > 0 && s[0] != '.') then None
    else
      var t := if i > 0 then s[1..] else s;
      var c := LeadingDigits(t);
      var n := DecimalValue(t[..c]);
      if c == 0 || n > 255 || (c > 1 && t[0] == '0') then None
      else match ParseFrom(t[c..], i + 1)
        case None => None
        case Some(rest) => Some([n as byte] + rest)
  }

  /** net.ParseIP followed by To4, on dotted-decimal text: no leading zeros, no field above 255. */
  function ParseIPv4(s: string): (r: Option<Quad>) {
    ParseFrom(s, 0)
  }

  /** One field is read back, and the text after it handed on. */
  lemma ParseField(b: byte, rest: string, i: nat)
    requires i < 4 && (rest == [] || !IsDigit(rest[0]))
    ensures var r := ParseFrom(rest, i + 1);
      ParseFrom((if i > 0 then "." else "") + Decimal(b as nat) + rest, i)
      == if r.None? then None else Some([b] + r.value)
  {
    hide Decimal, DecimalValue, LeadingDigits;
    var d := Decimal(b as nat);
    var s := (if i > 0 then "." else "") + d + rest;
    var t := if i > 0 then s[1..] else s;
    assert t == d + rest;
    assert t[..|d|] == d && t[|d|..] == rest;
    LeadingDigitsOf(d, rest);
    DecimalRoundTrip(b as nat);
  }

  lemma ParseEnd()
    ensures ParseFrom("", 4) == Some([])
  {
  }

  lemma {:induction false} ParseDottedFrom(q: Quad, i: nat)
    requires i <= 4
    ensures ParseFrom(DottedFrom(q, i), i) == Some(q[i..])
    decreases 4 - i
  {
    hide ParseFrom, Decimal;
    ParseEnd();
    if i < 4 {
      ParseDottedFrom(q, i + 1);
      var rest := DottedFrom(q, i + 1);
      ParseField(q[i], rest, i);
      assert DottedFrom(q, i) == (if i > 0 then "." else "") + Decimal(q[i] as nat) + rest;
      assert q[i..] == [q[i]] + q[i + 1..];
    } else {
      assert q[i..] == [];
    }
  }

  /** A number without leading zeros is printed as it was read. */
  lemma {:induction false} DecimalOfValue(t: string)
    requires t != [] && forall i :: 0 <= i < |t| ==> IsDigit(t[i])
    requires |t| > 1 ==> t[0] != '0'
    ensures Decimal(DecimalValue(t)) == t
    ensures |t| > 1 ==> DecimalValue(t) >= 10
  {
    var n := |t| - 1;
    var d := DigitValue(t[n]);
    ValueOfDigits(t);
    assert t == t[..n] + [t[n]];
    hide DecimalValue, Decimal;
    DigitText(t[n]);
    if n > 0 {
      DecimalOfValue(t[..n]);
      if n == 1 { ValueOfDigits(t[..1]); }
      OneMoreDigit(DecimalValue(t[..n]), d);
    } else {
      assert t == [t[0]];
    }
  }

  lemma DigitText(c: char)
    requires IsDigit(c)
    ensures DigitValue(c) < 10 && '0' + DigitValue(c) as char == c && Decimal(DigitValue(c)) == [c]
  {
  }

  lemma OneMoreDigit(v: nat, d: nat)
    requires 0 < v && d < 10
    ensures Decimal(v * 10 + d) == Decimal(v) + ['0' + d as char]
  {
    QuotientAndDigit(v, d);
  }

  lemma ValueOfDigits(t: string)
    requires t != [] && forall i :: 0 <= i < |t| ==> IsDigit(t[i])
    ensures DecimalValue(t) == DecimalValue(t[..|t| - 1]) * 10 + DigitValue(t[|t| - 1])
    ensures |t| == 1 ==> DecimalValue(t) == DigitValue(t[0])
  {
    if |t| == 1 { assert t[..0] == []; }
  }

  lemma QuotientAndDigit(v: nat, d: nat)
    requires d < 10
    ensures (v * 10 + d) / 10 == v && (v * 10 + d) % 10 == d
  {
  }

  /** What parses starts with a separator, unless it is the first field, and a number below 256. */
  lemma ParseStarts(s: string, i: nat)
    requires i < 4 && ParseFrom(s, i).Some?
    ensures s != [] && (i > 0 ==> s[0] == '.')
    ensures var t := if i > 0 then s[1..] else s;
      var c := LeadingDigits(t);
      && 0 < c && (c > 1 ==> t[0] != '0') && DecimalValue(t[..c]) <= 255
      && ParseFrom(t[c..], i + 1).Some?
      && ParseFrom(s, i).value == [DecimalValue(t[..c]) as byte] + ParseFrom(t[c..], i + 1).value
  {
    hide DecimalValue, LeadingDigits;
  }

  lemma Associate(a: string, b: string, c: string)
    ensures a + (b + c) == a + b + c
  {
  }

  /** The text of one field and the text after it. */
  lemma FieldOfParse(s: string, i: nat) returns (field: string, rest: string)
    requires i < 4 && ParseFrom(s, i).Some?
    ensures var q := ParseFrom(s, i).value;
      && s == (if i > 0 then "." else "") + field + rest
      && field == Decimal(q[0] as nat) && ParseFrom(rest, i + 1) == Some(q[1..])
  {
    hide Decimal, DecimalValue, LeadingDigits, ParseFrom;
    ParseStarts(s, i);
    var t := if i > 0 then s[1..] else s;
    var c := LeadingDigits(t);
    field, rest := t[..c], t[c..];
    assert t == field + rest;
    assert s == (if i > 0 then "." else "") + (field + rest) by { if i > 0 { assert s == ['.'] + t; } }
    Associate(if i > 0 then "." else "", field, rest);
    DecimalOfValue(field);
    assert ParseFrom(s, i).value[1..] == ParseFrom(rest, i + 1).value;
  }

  lemma {:induction false} DottedOfParse(s: string, i: nat, q: Quad)
    requires i <= 4 && ParseFrom(s, i) == Some(q[i..])
    ensures DottedFrom(q, i) == s
    decreases 4 - i
  {
    hide Decimal;
    if i < 4 {
      hide ParseFrom;
      var field, rest := FieldOfParse(s, i);
      assert q[i..][0] == q[i] && q[i..][1..] == q[i + 1..];
      DottedOfParse(rest, i + 1, q);
    }
  }

  /** Four decimal numbers with dots between them. */
  lemma DottedForm(q: Quad)
    ensures Dotted(q) == Decimal(q[0] as nat) + "." + Decimal(q[1] as nat) + "." + Decimal(q[2] as nat) + "."
      + Decimal(q[3] as nat)
  {
    hide Decimal;
    var d3 := Decimal(q[3] as nat);
    assert DottedFrom(q, 3) == "." + d3;
    assert DottedFrom(q, 2) == "." + Decimal(q[2] as nat) + DottedFrom(q, 3);
    assert DottedFrom(q, 1) == "." + Decimal(q[1] as nat) + DottedFrom(q, 2);
  }

  lemma ParseDotted(q: Quad)
    ensures ParseIPv4(Dotted(q)) == Some(q)
  {
    ParseDottedFrom(q, 0);
  }

  /** Printing and parsing an IPv4 address are inverse: the text of an address is the only one that parses to it. */
  lemma ParseText(q: Quad, s: string)
    ensures ParseIPv4(s) == Some(q) <==> s == Dotted(q)
  {
    hide DottedFrom, ParseFrom;
    ParseDotted(q);
    assert q[0..] == q;
    if ParseIPv4(s) == Some(q) { DottedOfParse(s, 0, q); }
  }

  lemma TextInjective(a: nat, b: nat)
    requires a < IPV4_SPACE && b < IPV4_SPACE
    requires Text(a) == Text(b)
    ensures a == b
  {
    ParseDotted(QuadOf(a));
    ParseDotted(QuadOf(b));
    QuadRoundTrip(a);
    QuadRoundTrip(b);
  }

  // ---------- CIDR prefixes ----------

  /** A parsed prefix: the address as written (host bits kept) and the prefix length. */
  datatype Cidr = Cidr(written: nat, bits: nat) {
    predicate Valid() {
      written < IPV4_SPACE && bits <= 32
    }
  }

  function IndexOf(s: string, c: char): (i: nat)
    ensures i <= |s|
    ensures i < |s| ==> s[i] == c
    ensures forall k :: 0 <= k < i ==> s[k] != c
  {
    if s == [] || s[0] == c then 0 else 1 + IndexOf(s[1..], c)
  }

  /** net.ParseCIDR on IPv4 prefix notation (section 3.1 of RFC 4632). */
  function ParseCIDR(s: string): (r: Option<Cidr>)
    ensures r.Some? ==> r.value.Valid()
  {
    var i := IndexOf(s, '/');
    if i == |s| then None
    else
      var mask := s[i + 1..];
      var c := LeadingDigits(mask);
      var ip := ParseIPv4(s[..i]);
      if ip.None? || c == 0 || c != |mask| || DecimalValue(mask) > 32 then None
      else
        ValueOfQuad(ip.value);
        Some(Cidr(Value(ip.value), DecimalValue(mask)))
  }

  function CidrText(c: Cidr): string
    requires c.Valid()
  {
    Text(c.written) + "/" + Decimal(c.bits)
  }

  lemma {:induction false} DottedHasNoSlash(q: Quad, i: nat)
    requires i <= 4
    ensures '/' !in DottedFrom(q, i)
    decreases 4 - i
  {
    if i < 4 { DottedHasNoSlash(q, i + 1); }
  }

  lemma CidrRoundTrip(c: Cidr)
    requires c.Valid()
    ensures ParseCIDR(CidrText(c)) == Some(c)
  {
    hide ParseCIDR, Text;
    LeadingDigitsOf(Decimal(c.bits), "");
    assert Decimal(c.bits) + "" == Decimal(c.bits);
    DecimalRoundTrip(c.bits);
    CidrParses(c, Decimal(c.bits));
  }

  /** A text parses as a prefix exactly if it is an address, a slash, and up to 32 in decimal digits. */
  lemma CidrExactly(s: string, c: Cidr)
    ensures ParseCIDR(s) == Some(c) <==>
      && c.Valid()
      && exists mask: string ::
           && s == Text(c.written) + "/" + mask && mask != []
           && LeadingDigits(mask) == |mask| && DecimalValue(mask) == c.bits
  {
    hide ParseIPv4, DottedFrom, DecimalValue, LeadingDigits;
    if ParseCIDR(s) == Some(c) {
      var i := IndexOf(s, '/');
      var q := ParseIPv4(s[..i]).value;
      ParseText(q, s[..i]);
      ValueRoundTrip(q);
      assert s == s[..i] + [s[i]] + s[i + 1..];
      assert s == Text(c.written) + "/" + s[i + 1..];
    }
    forall mask: string | c.Valid() && s == Text(c.written) + "/" + mask && mask != []
      && LeadingDigits(mask) == |mask| && DecimalValue(mask) == c.bits
      ensures ParseCIDR(s) == Some(c)
    {
      CidrParses(c, mask);
    }
  }

  lemma CidrParses(c: Cidr, mask: string)
    requires c.Valid() && mask != [] && LeadingDigits(mask) == |mask| && DecimalValue(mask) == c.bits
    ensures ParseCIDR(Text(c.written) + "/" + mask) == Some(c)
  {
    hide ParseIPv4, DottedFrom, DecimalValue, LeadingDigits, QuadOf;
    var t := Text(c.written);
    var s := t + "/" + mask;
    DottedHasNoSlash(QuadOf(c.written), 0);
    assert s[|t|] == '/';
    assert IndexOf(s, '/') == |t| by { assert forall k :: 0 <= k < |t| ==> s[k] == t[k] && s[k] != '/'; }
    assert s[..|t|] == t && s[|t| + 1..] == mask;
    ParseDotted(QuadOf(c.written));
    QuadRoundTrip(c.written);
  }

  function Pow2(n: nat): (p: nat)
    ensures p > 0
  {
    if n == 0 then 1 else 2 * Pow2(n - 1)
  }

  /** How many addresses the prefix covers. */
  function Size(c: Cidr): nat
    requires c.Valid()
  {
    Pow2(32 - c.bits)
  }

  lemma ModAtMost(a: nat, b: nat)
    requires b > 0
    ensures a % b <= a
  {
    if a < b { assert a % b == a; }
  }

  /** The address with its host bits cleared. */
  function Masked(c: Cidr, a: nat): nat
    requires c.Valid()
  {
    ModAtMost(a, Size(c));
    a - a % Size(c)
  }

  function First(c: Cidr): nat
    requires c.Valid()
  {
    Masked(c, c.written)
  }

  function Last(c: Cidr): int
    requires c.Valid()
  {
    First(c) + Size(c) - 1
  }

  /** The addresses of the prefix; see InNetIsMaskComparison. */
  predicate InNet(c: Cidr, a: nat)
    requires c.Valid()
  {
    First(c) <= a <= Last(c)
  }

  /** IPNet.Contains on bytes: addresses that are not IPv4 are in no IPv4 network. */
  predicate Contains(c: Cidr, ip: seq<byte>)
    requires c.Valid()
  {
    var q := To4(ip);
    q.Some? && InNet(c, Value(q.value))
  }

  lemma MulMonotone(x: nat, y: nat, b: nat)
    requires x <= y
    ensures x * b <= y * b
  {
  }

  lemma NextMultiple(x: nat, b: nat)
    ensures (x + 1) * b == x * b + b
  {
  }

  lemma DivMod(a: nat, b: nat)
    requires b > 0
    ensures a == a / b * b + a % b && a % b < b
  {
  }

  lemma ModUnique(a: nat, k: nat, b: nat)
    requires b > 0 && k * b <= a < k * b + b
    ensures a - a % b == k * b
  {
    var q := a / b;
    NextMultiple(q, b);
    NextMultiple(k, b);
    if q < k { MulMonotone(q + 1, k, b); }
  }

  /** An address is in the prefix iff it agrees with the written one outside the host bits. */
  lemma InNetIsMaskComparison(c: Cidr, a: nat)
    requires c.Valid()
    ensures InNet(c, a) <==> Masked(c, a) == Masked(c, c.written)
  {
    var b := Size(c);
    var k := c.written / b;
    DivMod(c.written, b);
    DivMod(a, b);
    if InNet(c, a) { ModUnique(a, k, b); }
  }

  lemma WrittenInNet(c: Cidr)
    requires c.Valid()
    ensures InNet(c, c.written)
  {
    DivMod(c.written, Size(c));
  }

  lemma {:induction false} Pow2Adds(m: nat, n: nat)
    ensures Pow2(m + n) == Pow2(m) * Pow2(n)
  {
    if m > 0 { Pow2Adds(m - 1, n); }
  }

  lemma LastBlock(a: nat, b: nat, p: nat)
    requires b > 0 && a < p * b
    ensures a - a % b + b <= p * b
  {
    var k := a / b;
    DivMod(a, b);
    NextMultiple(k, b);
    if k >= p { MulMonotone(p, k, b); }
    MulMonotone(k + 1, p, b);
  }

  /** No prefix reaches beyond the IPv4 space. */
  lemma LastInSpace(c: Cidr)
    requires c.Valid()
    ensures Last(c) < IPV4_SPACE
  {
    Pow2Adds(c.bits, 32 - c.bits);
    Pow2Is32();
    LastBlock(c.written, Size(c), Pow2(c.bits));
  }

  lemma Pow2Is32()
    ensures Pow2(32) == IPV4_SPACE
  {
    assert Pow2(8) == 256;
    Pow2Adds(8, 8);
    Pow2Adds(16, 16);
  }
}
