/** Names of tunnel interfaces: the id of the network and a hash of the pod name. */
module Names {
  import opened Ipam

  // ---------- the hash ----------

  const FNV_OFFSET: nat := 14695981039346656037
  const FNV_PRIME: nat := 1099511628211
  const TWO_64: nat := 0x1_0000_0000_0000_0000

  function Xor8(a: nat, b: nat): (r: nat)
    requires a < 256 && b < 256
    ensures r < 256
  {
    (a as bv8 ^ b as bv8) as nat
  }

  /** Exclusive or with one byte, which only concerns the lowest byte. */
  function XorByte(h: nat, b: nat): (r: nat)
    requires h < TWO_64 && b < 256
    ensures r < TWO_64
  {
    h / 256 * 256 + Xor8(h % 256, b)
  }

  /** FNV-1 in 64 bits over the bytes of an ASCII name. */
  function Fnv(s: string): (h: nat)
    ensures h < TWO_64
  {
    if s == [] then FNV_OFFSET
    else XorByte(Fnv(s[..|s| - 1]) * FNV_PRIME % TWO_64, s[|s| - 1] as nat % 256)
  }

  /** Known values of FNV-1 in 64 bits. */
  lemma FnvVectors()
    ensures Fnv("") == 0xcbf29ce484222325
    ensures Fnv("a") == 0xaf63bd4c8601b7be
  {
    hide Xor8;
    assert "a"[..0] == "";
    assert FNV_OFFSET * FNV_PRIME % TWO_64 == 0xaf63bd4c8601b7df;
    XorVector();
  }

  lemma XorVector()
    ensures Xor8(0xdf, 0x61) == 0xbe
  {
    assert (0xdf as bv8 ^ 0x61 as bv8) == 0xbe as bv8;
  }

  // ---------- base 58 ----------

  /** The digits of base 58 as Flickr orders them. */
  const ALPHABET: string :=
    "123456789" + "abcdefghijk" + "mnopqrstuvwxyz" + "ABCDEFGH" + "JKLMN" + "PQRSTUVWXYZ"

  /** The digits of the Flickr alphabet: no 0, l, I or O. */
  function Flickr(d: nat): char
    requires d < 58
  {
    if d < 9 then '1' + d as char
    else if d < 20 then 'a' + (d - 9) as char
    else if d < 34 then 'm' + (d - 20) as char
    else if d < 42 then 'A' + (d - 34) as char
    else if d < 47 then 'J' + (d - 42) as char
    else 'P' + (d - 47) as char
  }

  function Encode58(n: nat): (s: string)
    ensures |s| > 0
  {
    if n < 58 then [Flickr(n)] else Encode58(n / 58) + [Flickr(n % 58)]
  }

  lemma FlickrDistinct(i: nat, j: nat)
    requires i < 58 && j < 58 && Flickr(i) == Flickr(j)
    ensures i == j
  {
  }

  lemma FlickrIsAlphabet(d: nat)
    requires d < 58
    ensures |ALPHABET| == 58 && Flickr(d) == ALPHABET[d]
  {
    Letters("123456789", '1');
    Letters("abcdefghijk", 'a');
    Letters("mnopqrstuvwxyz", 'm');
    Letters("ABCDEFGH", 'A');
    Letters("JKLMN", 'J');
    Letters("PQRSTUVWXYZ", 'P');
  }

  lemma FlickrOnly(d: nat)
    requires d < 58
    ensures forall c :: IsDigit58(c, d) <==> c == Flickr(d)
  {
    hide Flickr;
    FlickrIsAlphabet(d);
  }

  /** Characters that follow each other. */
  lemma Letters(s: string, first: char)
    requires |s| <= 14 && first <= 'z' && forall i :: 0 < i < |s| ==> s[i] as int == s[i - 1] as int + 1
    requires s != [] ==> s[0] == first
    ensures forall i :: 0 <= i < |s| ==> s[i] as int == first as int + i
  {
    for k := 0 to |s|
      invariant forall i :: 0 <= i < k ==> s[i] as int == first as int + i
    {
      if k > 0 { assert s[k] as int == s[k - 1] as int + 1; }
    }
  }

  /** The text holds the digits of the number, the most significant first. */
  ghost predicate IsBase58(s: string, n: nat)
    decreases |s|
  {
    && s != [] && IsDigit58(s[|s| - 1], n % 58)
    && if n < 58 then |s| == 1 else IsBase58(s[..|s| - 1], n / 58)
  }

  predicate IsDigit58(c: char, d: nat) {
    d < |ALPHABET| && c == ALPHABET[d]
  }

  lemma {:induction false} Encode58Exactly(n: nat, s: string)
    ensures IsBase58(s, n) <==> s == Encode58(n)
    decreases n
  {
    hide IsDigit58, Flickr;
    FlickrOnly(n % 58);
    if n < 58 {
      if IsBase58(s, n) { assert s == [s[0]]; }
      assert IsBase58(Encode58(n), n);
    } else {
      var e := Encode58(n);
      Encode58Exactly(n / 58, e[..|e| - 1]);
      assert e[..|e| - 1] == Encode58(n / 58);
      if IsBase58(s, n) {
        Encode58Exactly(n / 58, s[..|s| - 1]);
        assert s == s[..|s| - 1] + [s[|s| - 1]];
      }
    }
  }

  lemma {:induction false} Encode58Injective(m: nat, n: nat)
    requires Encode58(m) == Encode58(n)
    ensures m == n
  {
    var s := Encode58(m);
    assert s[|s| - 1] == Flickr(m % 58) == Flickr(n % 58);
    FlickrDistinct(m % 58, n % 58);
    if m >= 58 && n >= 58 {
      assert s[..|s| - 1] == Encode58(m / 58) == Encode58(n / 58);
      Encode58Injective(m / 58, n / 58);
    }
  }

  function Pow58(k: nat): nat {
    if k == 0 then 1 else 58 * Pow58(k - 1)
  }

  /** A number has at most k digits iff it is below 58^k. */
  lemma {:induction false} Encode58Length(n: nat, k: nat)
    requires k > 0
    ensures |Encode58(n)| <= k <==> n < Pow58(k)
  {
    if n >= 58 && k > 1 {
      Encode58Length(n / 58, k - 1);
    } else if n < 58 {
      Pow58AtLeast(k);
    } else {
      assert Pow58(1) == 58;
    }
  }

  lemma {:induction false} Pow58AtLeast(k: nat)
    requires k > 0
    ensures Pow58(k) >= 58
  {
    if k > 1 { Pow58AtLeast(k - 1); } else { assert Pow58(0) == 1; }
  }

  lemma Pow58Bounds()
    ensures Pow58(10) < TWO_64 < Pow58(11)
  {
    assert Pow58(2) == 3364 && Pow58(3) == 195112;
    assert Pow58(4) == 11316496 && Pow58(5) == 656356768;
    assert Pow58(6) == 38068692544 && Pow58(7) == 2207984167552;
    assert Pow58(8) == 128063081718016 && Pow58(9) == 7427658739644928;
  }

  // ---------- the names ----------

  /** Two's complement in 32 bits. */
  function Wrap32(x: int): int {
    (x + 0x8000_0000) % 0x1_0000_0000 - 0x8000_0000
  }

  lemma WrapStep(k: nat)
    ensures Wrap32(Wrap32(k) + 1) == Wrap32(k + 1) && Wrap32(Wrap32(k + 1) - 1) == Wrap32(k)
  {
  }

  lemma WrapInjective(i: nat, j: nat)
    requires i < 0x1_0000_0000 && j < 0x1_0000_0000 && Wrap32(i) == Wrap32(j)
    ensures i == j
  {
  }

  /** What %c prints: the rune, or the replacement character when it is none. */
  function Rune(v: int): char {
    if 0 <= v < 0xD800 || 0xE000 <= v < 0x11_0000 then v as char else '\U{FFFD}'
  }

  /** The letter of a network id. */
  function Letter(id: int): char {
    Rune(Wrap32('A' as int + id))
  }

  function Prefix(id: int): string {
    "o" + [Letter(id)] + "_"
  }

  function TunnelName(id: int, podName: string): string {
    Prefix(id) + Encode58(Fnv(podName))
  }

  /** A name is the letter of the network between o and an underscore, and the hash of the pod in base 58. */
  lemma TunnelNameExactly(id: int, podName: string, s: string)
    ensures s == TunnelName(id, podName) <==>
      && |s| > 3 && s[0] == 'o' && s[1] == Letter(id) && s[2] == '_' && IsBase58(s[3..], Fnv(podName))
  {
    hide Letter, Fnv, Encode58, IsBase58;
    Encode58Exactly(Fnv(podName), Encode58(Fnv(podName)));
    if |s| > 3 {
      Encode58Exactly(Fnv(podName), s[3..]);
      assert s == s[..3] + s[3..];
    }
  }

  /** Two tunnel names coincide iff the networks have the same letter and the pod names the same hash. */
  lemma TunnelNamesCoincide(i: int, p: string, j: int, q: string)
    ensures TunnelName(i, p) == TunnelName(j, q) <==> Letter(i) == Letter(j) && Fnv(p) == Fnv(q)
  {
    var s, t := TunnelName(i, p), TunnelName(j, q);
    if s == t {
      assert s[1] == Letter(i) && t[1] == Letter(j);
      assert s[3..] == Encode58(Fnv(p)) && t[3..] == Encode58(Fnv(q));
      Encode58Injective(Fnv(p), Fnv(q));
    }
  }

  /** Ids whose value is no rune, or is the replacement character itself: these are printed alike. */
  predicate NoRune(id: int) {
    var v := Wrap32('A' as int + id);
    !(0 <= v < 0xD800 || 0xE000 <= v < 0x11_0000) || v == 0xFFFD
  }

  /** In 32 bits, two ids share a letter iff they are the same or both are printed as the replacement character. */
  lemma LettersCoincide(i: nat, j: nat)
    requires i < 0x1_0000_0000 && j < 0x1_0000_0000
    ensures Letter(i) == Letter(j) <==> i == j || (NoRune(i) && NoRune(j))
  {
    hide Wrap32;
    WrapShifted(i);
    WrapShifted(j);
    if Wrap32('A' as int + i) == Wrap32('A' as int + j) { WrapInjectiveShifted(i, j); }
  }

  lemma WrapShifted(i: nat)
    ensures -0x8000_0000 <= Wrap32('A' as int + i) < 0x8000_0000
  {
  }

  lemma WrapInjectiveShifted(i: nat, j: nat)
    requires i < 0x1_0000_0000 && j < 0x1_0000_0000 && Wrap32('A' as int + i) == Wrap32('A' as int + j)
    ensures i == j
  {
  }

  /** An id has to share its letter with another one exactly if it has no rune of its own; 55231 is the first. */
  lemma SharesLetter(i: nat)
    requires i < 0x1_0000_0000
    ensures NoRune(i) <==> exists j: nat :: j < 0x1_0000_0000 && j != i && Letter(j) == Letter(i)
    ensures i < 0xD800 - 65 ==> !NoRune(i)
    ensures i == 0xD800 - 65 ==> NoRune(i)
  {
    hide Letter;
    if NoRune(i) {
      var j: nat := if i == 0xD800 - 65 then 0xD800 - 64 else 0xD800 - 65;
      assert NoRune(j);
      LettersCoincide(i, j);
    }
    forall j: nat | j < 0x1_0000_0000 && j != i && Letter(j) == Letter(i) ensures NoRune(i) { LettersCoincide(i, j); }
  }

  /** The prefix singles out the names of one network. */
  lemma PrefixSelects(i: int, j: int, p: string)
    ensures Prefix(i) <= TunnelName(j, p) <==> Letter(i) == Letter(j)
  {
    var s := TunnelName(j, p);
    assert s[1] == Letter(j) && Prefix(i)[1] == Letter(i);
    assert s[..3] == Prefix(j);
  }

  /** The names of the first 26 networks are ASCII and fit the 15 bytes of an interface name. */
  lemma NamesFit(id: nat, podName: string)
    requires id < 26
    ensures |TunnelName(id, podName)| <= 14
    ensures 'A' <= Letter(id) <= 'Z'
  {
    hide Fnv, Encode58, Pow58;
    Pow58Bounds();
    Encode58Length(Fnv(podName), 11);
    assert |Prefix(id)| == 3;
  }

  // ---------- network ids ----------

  /** The names in the order in which they were first asked for. */
  function FirstSeen(calls: seq<string>): (r: seq<string>)
    ensures Elements(r) == Elements(calls)
    ensures forall i, j :: 0 <= i < j < |r| ==> r[i] != r[j]
  {
    if calls == [] then []
    else
      var before := FirstSeen(calls[..|calls| - 1]);
      var n := calls[|calls| - 1];
      assert calls == calls[..|calls| - 1] + [n];
      assert Elements(calls) == Elements(calls[..|calls| - 1]) + {n};
      assert n in before <==> n in Elements(before);
      if n in before then before else before + [n]
  }

  lemma FirstSeenOneMore(calls: seq<string>, n: string)
    ensures var seen := FirstSeen(calls); FirstSeen(calls + [n]) == if n in seen then seen else seen + [n]
  {
    assert (calls + [n])[..|calls|] == calls;
  }

  /** Each name has its position as its id, in 32 bits. */
  ghost predicate Numbered(ids: map<string, int>, seen: seq<string>) {
    (forall n :: n in ids <==> n in seen) && forall i :: 0 <= i < |seen| ==> ids[seen[i]] == Wrap32(i)
  }

  lemma NumberedOneMore(ids: map<string, int>, seen: seq<string>, n: string)
    requires Numbered(ids, seen) && n !in seen
    ensures Numbered(ids[n := Wrap32(|seen|)], seen + [n])
  {
    hide Wrap32;
  }

  lemma NumberedOnes(ids: map<string, int>, seen: seq<string>, n: string)
    requires Numbered(ids, seen)
    ensures n in ids <==> n in seen
  {
  }

  /** The part of the tunnel reconciler that hands out network ids. */
  class NetworkIds {
    var networkToName: map<string, int>
    var networkIndex: int
    ghost var calls: seq<string>

    /** The i-th name seen has id i, and the counter stands at the number of names, both in 32 bits. */
    ghost predicate Valid()
      reads this
    {
      Numbered(networkToName, FirstSeen(calls)) && networkIndex == Wrap32(|FirstSeen(calls)|)
    }

    constructor ()
      ensures Valid() && calls == []
    {
      networkToName := map[];
      networkIndex := 0;
      calls := [];
    }

    method GetNetworkId(n: string) returns (id: int)
      requires Valid()
      modifies this
      ensures Valid() && calls == old(calls) + [n]
      ensures n in networkToName && id == networkToName[n]
      ensures forall m :: m in old(networkToName) ==> m in networkToName && networkToName[m] == old(networkToName)[m]
    {
      hide Wrap32, FirstSeen, Numbered;
      ghost var seen := FirstSeen(calls);
      WrapStep(|seen|);
      FirstSeenOneMore(calls, n);
      NumberedOnes(networkToName, seen, n);
      calls := calls + [n];
      if n !in networkToName {
        NumberedOneMore(networkToName, seen, n);
        networkIndex := Wrap32(networkIndex + 1);
        id := Wrap32(networkIndex - 1);
        networkToName := networkToName[n := id];
      } else {
        id := networkToName[n];
      }
    }
  }

  /** The id a name has after a sequence of calls. */
  ghost predicate HasId(calls: seq<string>, n: string, id: int) {
    exists i :: 0 <= i < |FirstSeen(calls)| && FirstSeen(calls)[i] == n && id == Wrap32(i)
  }

  lemma {:induction false} FirstSeenGrows(calls: seq<string>, more: seq<string>)
    ensures FirstSeen(calls) <= FirstSeen(calls + more)
  {
    if more == [] {
      assert calls + more == calls;
    } else {
      var all := calls + more;
      assert all[..|all| - 1] == calls + more[..|more| - 1];
      FirstSeenGrows(calls, more[..|more| - 1]);
    }
  }

  /** Ids are never taken back, and distinct names have distinct ids as long as 32 bits suffice. */
  lemma IdsStableAndInjective(calls: seq<string>, more: seq<string>, n: string, m: string, id: int)
    requires HasId(calls, n, id)
    ensures HasId(calls + more, n, id)
    ensures HasId(calls, m, id) && |FirstSeen(calls)| <= 0x1_0000_0000 ==> m == n
  {
    hide Wrap32;
    FirstSeenGrows(calls, more);
    var i :| 0 <= i < |FirstSeen(calls)| && FirstSeen(calls)[i] == n && id == Wrap32(i);
    assert FirstSeen(calls + more)[i] == n;
    if HasId(calls, m, id) && |FirstSeen(calls)| <= 0x1_0000_0000 {
      var j :| 0 <= j < |FirstSeen(calls)| && FirstSeen(calls)[j] == m && id == Wrap32(j);
      WrapInjective(i, j);
    }
  }

  /** Wrapping takes away a multiple of 2^32. */
  lemma WrapQuotient(x: int) returns (q: int)
    ensures Wrap32(x) == x - q * 0x1_0000_0000
  {
    q := (x + 0x8000_0000) / 0x1_0000_0000;
  }

  lemma WrapPeriodic(x: int, q: int)
    ensures Wrap32(x - q * 0x1_0000_0000) == Wrap32(x)
  {
    var y := x + 0x8000_0000;
    var d := y / 0x1_0000_0000;
    RemainderOf(y - q * 0x1_0000_0000, d - q, y % 0x1_0000_0000);
  }

  lemma RemainderOf(a: int, d: int, r: int)
    requires a == d * 0x1_0000_0000 + r && 0 <= r < 0x1_0000_0000
    ensures a % 0x1_0000_0000 == r
  {
  }

  lemma WrapShift(i: nat)
    ensures Wrap32('A' as int + Wrap32(i)) == Wrap32('A' as int + i)
  {
    hide Wrap32;
    var q := WrapQuotient(i);
    WrapPeriodic('A' as int + i, q);
  }

  lemma LetterOfWrapped(i: nat)
    ensures Letter(Wrap32(i)) == Letter(i) && (NoRune(Wrap32(i)) <==> NoRune(i))
  {
    hide Wrap32, Rune;
    WrapShift(i);
  }

  /**
   Over any sequence of calls that has seen at most 2^32 names, the tunnel names of two networks
   coincide iff the pods have the same hash and the networks are the same or both ids have no rune.
   */
  lemma NetworksCoincide(calls: seq<string>, n: string, i: int, p: string, m: string, j: int, q: string)
    requires HasId(calls, n, i) && HasId(calls, m, j) && |FirstSeen(calls)| <= 0x1_0000_0000
    ensures TunnelName(i, p) == TunnelName(j, q) <==>
      (n == m || (NoRune(i) && NoRune(j))) && Fnv(p) == Fnv(q)
  {
    hide Wrap32, TunnelName, Fnv, Letter, NoRune;
    TunnelNamesCoincide(i, p, j, q);
    var a :| 0 <= a < |FirstSeen(calls)| && FirstSeen(calls)[a] == n && i == Wrap32(a);
    var b :| 0 <= b < |FirstSeen(calls)| && FirstSeen(calls)[b] == m && j == Wrap32(b);
    LetterOfWrapped(a);
    LetterOfWrapped(b);
    LettersCoincide(a, b);
    assert a == b <==> n == m;
  }
}
