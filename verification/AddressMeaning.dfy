/** What the address policy decides, told from the octets of an address (`src/feeds/address_policy.rs`). */
module AddressMeaning {
  import opened AddressPolicy
  import opened Octets
  import opened Rfc6052

  // ---- IPv4

  /** The ranges that are refused: 0.0.0.0 to 0.255.255.255, 10.0.0.0 to 10.255.255.255, 100.64.0.0 to
      100.127.255.255, 127.0.0.0 to 127.255.255.255, 169.254.0.0 to 169.254.255.255, 172.16.0.0 to
      172.31.255.255, 192.0.0.0 to 192.0.0.255, 192.0.2.0 to 192.0.2.255, 192.88.99.0 to 192.88.99.255,
      192.168.0.0 to 192.168.255.255, 198.18.0.0 to 198.19.255.255, 198.51.100.0 to 198.51.100.255,
      203.0.113.0 to 203.0.113.255, and 224.0.0.0 to 255.255.255.255. */
  predicate Special(o: seq<Octet>)
    requires |o| == 4
  {
    || o[0] == 0 || o[0] == 10 || o[0] == 127 || o[0] >= 224
    || (o[0] == 100 && 64 <= o[1] <= 127)
    || (o[0] == 169 && o[1] == 254)
    || (o[0] == 172 && 16 <= o[1] <= 31)
    || (o[0] == 192 && o[1] == 0 && (o[2] == 0 || o[2] == 2))
    || (o[0] == 192 && o[1] == 88 && o[2] == 99)
    || (o[0] == 192 && o[1] == 168)
    || (o[0] == 198 && 18 <= o[1] <= 19)
    || (o[0] == 198 && o[1] == 51 && o[2] == 100)
    || (o[0] == 203 && o[1] == 0 && o[2] == 113)
  }

  lemma ValueOfFour(o: seq<Octet>)
    requires |o| == 4
    ensures Value(o) == Quad(o[0], o[1], o[2], o[3]) < 0x1_0000_0000
  {
    assert Value(o[..1]) == o[0] by { assert o[..1][..0] == []; }
    assert Value(o[..2]) == 256 * Value(o[..1]) + o[1] by { assert o[..2][..1] == o[..1]; }
    assert Value(o[..3]) == 256 * Value(o[..2]) + o[2] by { assert o[..3][..2] == o[..2]; }
  }

  /** Membership in the i-th range of the table. */
  predicate InRow(a: Ipv4, i: nat)
    requires i < |DENIED_IPV4|
  {
    DENIED_IPV4[i].1 <= 32 && InPrefix(a, DENIED_IPV4[i].0, DENIED_IPV4[i].1, 32)
  }

  lemma SmallPowers()
    ensures Pow2(8) == 0x100 && Pow2(16) == 0x1_0000 && Pow2(17) == 0x2_0000 && Pow2(20) == 0x10_0000
    ensures Pow2(22) == 0x40_0000 && Pow2(24) == 0x100_0000 && Pow2(28) == 0x1000_0000
  {
  }

  lemma QuotientRange(a: nat, unit: nat, first: nat)
    requires unit >= 1 && Floor(first, unit) == first
    ensures a / unit == first / unit <==> first <= a < first + unit
  {
    FloorBelow(a, unit);
    if first <= a < first + unit {
      QuotientUnique(a, unit, first / unit);
    }
  }

  lemma RowRange(a: Ipv4, i: nat, first: nat, length: nat, unit: nat)
    requires i < |DENIED_IPV4| && DENIED_IPV4[i] == (first, length) && length <= 32
    requires unit == Pow2(32 - length) && Floor(first, unit) == first
    ensures InRow(a, i) <==> first <= a < first + unit
  {
    QuotientRange(a, unit, first);
  }

  lemma LowRows(o: seq<Octet>, a: Ipv4)
    requires |o| == 4 && a == Quad(o[0], o[1], o[2], o[3])
    ensures InRow(a, 1) <==> o[0] == 10
    ensures InRow(a, 3) <==> o[0] == 127
  {
    SmallPowers();
    RowRange(a, 1, Quad(10, 0, 0, 0), 8, 0x100_0000);
    RowRange(a, 3, Quad(127, 0, 0, 0), 8, 0x100_0000);
  }

  lemma FirstOctetZero(o: seq<Octet>, a: Ipv4)
    requires |o| == 4 && a == Quad(o[0], o[1], o[2], o[3])
    ensures a < 0x100_0000 <==> o[0] == 0
  {
  }

  lemma QuotientZero(a: nat, unit: nat)
    requires unit >= 1
    ensures a / unit == 0 / unit <==> a < unit
  {
    assert 0 / unit == 0;
    FloorBelow(a, unit);
    if a < unit { QuotientUnique(a, unit, 0); }
  }

  lemma ZeroRange(a: Ipv4)
    ensures InRow(a, 0) <==> a < 0x100_0000
  {
    var unit := Pow2(24);
    assert unit == 0x100_0000 by { SmallPowers(); }
    assert DENIED_IPV4[0] == (0, 8);
    QuotientZero(a, unit);
  }

  lemma ZeroRow(o: seq<Octet>, a: Ipv4)
    requires |o| == 4 && a == Quad(o[0], o[1], o[2], o[3])
    ensures InRow(a, 0) <==> o[0] == 0
  {
    FirstOctetZero(o, a);
    ZeroRange(a);
  }

  lemma SharedRow(o: seq<Octet>, a: Ipv4)
    requires |o| == 4 && a == Quad(o[0], o[1], o[2], o[3])
    ensures InRow(a, 2) <==> o[0] == 100 && 64 <= o[1] <= 127
  {
    SmallPowers();
    RowRange(a, 2, Quad(100, 64, 0, 0), 10, 0x40_0000);
  }

  lemma PrivateRows(o: seq<Octet>, a: Ipv4)
    requires |o| == 4 && a == Quad(o[0], o[1], o[2], o[3])
    ensures InRow(a, 4) <==> o[0] == 169 && o[1] == 254
    ensures InRow(a, 5) <==> o[0] == 172 && 16 <= o[1] <= 31
    ensures InRow(a, 6) <==> o[0] == 192 && o[1] == 0 && o[2] == 0
  {
    SmallPowers();
    RowRange(a, 4, Quad(169, 254, 0, 0), 16, 0x1_0000);
    RowRange(a, 5, Quad(172, 16, 0, 0), 12, 0x10_0000);
    RowRange(a, 6, Quad(192, 0, 0, 0), 24, 0x100);
  }

  lemma ReservedRows(o: seq<Octet>, a: Ipv4)
    requires |o| == 4 && a == Quad(o[0], o[1], o[2], o[3])
    ensures InRow(a, 7) <==> o[0] == 192 && o[1] == 0 && o[2] == 2
    ensures InRow(a, 8) <==> o[0] == 192 && o[1] == 88 && o[2] == 99
    ensures InRow(a, 9) <==> o[0] == 192 && o[1] == 168
    ensures InRow(a, 10) <==> o[0] == 198 && 18 <= o[1] <= 19
  {
    SmallPowers();
    RowRange(a, 7, Quad(192, 0, 2, 0), 24, 0x100);
    RowRange(a, 8, Quad(192, 88, 99, 0), 24, 0x100);
    RowRange(a, 9, Quad(192, 168, 0, 0), 16, 0x1_0000);
    RowRange(a, 10, Quad(198, 18, 0, 0), 15, 0x2_0000);
  }

  lemma HighRows(o: seq<Octet>, a: Ipv4)
    requires |o| == 4 && a == Quad(o[0], o[1], o[2], o[3])
    ensures InRow(a, 11) <==> o[0] == 198 && o[1] == 51 && o[2] == 100
    ensures InRow(a, 12) <==> o[0] == 203 && o[1] == 0 && o[2] == 113
    ensures InRow(a, 13) <==> 224 <= o[0] <= 239
    ensures InRow(a, 14) <==> 240 <= o[0]
  {
    SmallPowers();
    RowRange(a, 11, Quad(198, 51, 100, 0), 24, 0x100);
    RowRange(a, 12, Quad(203, 0, 113, 0), 24, 0x100);
    RowRange(a, 13, Quad(224, 0, 0, 0), 4, 0x1000_0000);
    RowRange(a, 14, Quad(240, 0, 0, 0), 4, 0x1000_0000);
  }

  lemma RowsListed(a: Ipv4)
    ensures ClassifyNativeIpv4(a) == if
      || InRow(a, 0) || InRow(a, 1) || InRow(a, 2) || InRow(a, 3) || InRow(a, 4) || InRow(a, 5) || InRow(a, 6) || InRow(a, 7)
      || InRow(a, 8) || InRow(a, 9) || InRow(a, 10) || InRow(a, 11) || InRow(a, 12) || InRow(a, 13) || InRow(a, 14)
      then Denied(Ipv4Special) else Allowed
  {
    assert |DENIED_IPV4| == 15;
    if ClassifyNativeIpv4(a).Denied? {
      var i :| 0 <= i < |DENIED_IPV4| && DENIED_IPV4[i].1 <= 32 && InPrefix(a, DENIED_IPV4[i].0, DENIED_IPV4[i].1, 32);
      assert InRow(a, i);
    }
  }

  /** An IPv4 address is denied exactly when it lies in one of the special ranges. */
  lemma Ipv4Decision(o: seq<Octet>)
    requires |o| == 4
    ensures Value(o) < 0x1_0000_0000
    ensures ClassifyNativeIpv4(Value(o)) == if Special(o) then Denied(Ipv4Special) else Allowed
  {
    ValueOfFour(o);
    RowsListed(Value(o));
    ZeroRow(o, Value(o));
    LowRows(o, Value(o));
    SharedRow(o, Value(o));
    PrivateRows(o, Value(o));
    ReservedRows(o, Value(o));
    HighRows(o, Value(o));
  }

  /** Whatever prefixes are configured. */
  lemma Ipv4Classified(prefixes: seq<Net>, o: seq<Octet>)
    requires |o| == 4 && Usable(prefixes)
    ensures Value(o) < 0x1_0000_0000
    ensures Classify(prefixes, V4(Value(o))) == if Special(o) then Denied(Ipv4Special) else Allowed
  {
    Ipv4Decision(o);
  }

  /** Every IPv4 address is given by four octets. */
  lemma FourOctetsOf(a: Ipv4)
    ensures Value(BigEndian(a, 4)) == a
  {
    Powers();
    PowersAgree(4);
    ValueOfBigEndian(a, 4);
  }

  /** The decision on a configured or built-in embedding of an IPv4 address. */
  function Carried(o: seq<Octet>): Decision
    requires |o| == 4
  {
    if Special(o) then Denied(EmbeddedIpv4) else Allowed
  }

  lemma CarriedDecision(o: seq<Octet>)
    requires |o| == 4
    ensures Value(o) < 0x1_0000_0000 && ClassifyEmbeddedIpv4(Value(o)) == Carried(o)
  {
    Ipv4Decision(o);
  }

  // ---- prefixes as octets

  function Zeros(n: nat): (z: seq<Octet>)
    ensures |z| == n
  {
    seq(n, i => 0)
  }

  lemma {:induction false} ValueOfZeros(n: nat)
    ensures Value(Zeros(n)) == 0
  {
    if n > 0 {
      ValueOfZeros(n - 1);
      assert Zeros(n)[..n - 1] == Zeros(n - 1);
    }
  }

  lemma {:induction false} ValueInjective(s: seq<Octet>, t: seq<Octet>)
    requires |s| == |t|
    ensures Value(s) == Value(t) <==> s == t
  {
    if s != [] && Value(s) == Value(t) {
      var n := |s| - 1;
      ValueInjective(s[..n], t[..n]);
      assert s == s[..n] + [s[n]] && t == t[..n] + [t[n]];
    }
  }

  /** Membership in a prefix of whole octets is a comparison of the first octets. */
  lemma PrefixIs(s: seq<Octet>, t: seq<Octet>, network: nat)
    requires |s| == 16 && |t| <= 16 && Value(t) == network / Pow2(8 * (16 - |t|))
    ensures InPrefix(Value(s), network, 8 * |t|, 128) <==> s[..|t|] == t
  {
    var k := 16 - |t|;
    assert 128 - 8 * |t| == 8 * k;
    ValueSplit(s, k);
    ValueInjective(s[..|t|], t);
  }

  const SIX_TO_FOUR: seq<Octet> := [0x20, 0x02]
  const TEREDO: seq<Octet> := [0x20, 0x01, 0, 0]
  const DOCUMENTATION: seq<Octet> := [0x20, 0x01, 0x0d, 0xb8]
  const LOCAL_USE: seq<Octet> := [0, 0x64, 0xff, 0x9b] + [0, 1]
  const WELL_KNOWN: seq<Octet> := [0, 0x64, 0xff, 0x9b] + Zeros(8)
  const MAPPED: seq<Octet> := Zeros(10) + [0xff, 0xff]

  lemma ValueOfTwo(o: seq<Octet>)
    requires |o| == 2
    ensures Value(o) == Quad(0, 0, o[0], o[1])
  {
    assert Value(o[..1]) == o[0] by { assert o[..1][..0] == []; }
  }

  lemma ShortPrefixes(s: seq<Octet>)
    requires |s| == 16
    ensures InPrefix(Value(s), Groups(0x2002, 0, 0), 16, 128) <==> s[..2] == SIX_TO_FOUR
    ensures InPrefix(Value(s), Groups(0x2001, 0, 0), 32, 128) <==> s[..4] == TEREDO
    ensures InPrefix(Value(s), Groups(0x2001, 0xdb8, 0), 32, 128) <==> s[..4] == DOCUMENTATION
  {
    LargePowers();
    ValueOfTwo(SIX_TO_FOUR);
    PrefixIs(s, SIX_TO_FOUR, Groups(0x2002, 0, 0));
    ValueOfFour(TEREDO);
    PrefixIs(s, TEREDO, Groups(0x2001, 0, 0));
    ValueOfFour(DOCUMENTATION);
    PrefixIs(s, DOCUMENTATION, Groups(0x2001, 0xdb8, 0));
  }

  lemma LocalUsePrefix(s: seq<Octet>)
    requires |s| == 16
    ensures InPrefix(Value(s), Groups(0x64, 0xff9b, 1), 48, 128) <==> s[..6] == LOCAL_USE
  {
    Powers();
    Pow2Divides(16, 80);
    Pow2Of128();
    Pow2Divides(64, 80);
    ValueOfFour([0, 0x64, 0xff, 0x9b]);
    ValueOfTwo([0, 1]);
    ValueAppend([0, 0x64, 0xff, 0x9b], [0, 1]);
    PrefixIs(s, LOCAL_USE, Groups(0x64, 0xff9b, 1));
  }

  lemma WellKnownPrefix(s: seq<Octet>)
    requires |s| == 16
    ensures InPrefix(Value(s), Groups(0x64, 0xff9b, 0), 96, 128) <==> s[..12] == WELL_KNOWN
  {
    Powers();
    Pow2Of128();
    ValueOfFour([0, 0x64, 0xff, 0x9b]);
    ValueOfZeros(8);
    ValueAppend([0, 0x64, 0xff, 0x9b], Zeros(8));
    PrefixIs(s, WELL_KNOWN, Groups(0x64, 0xff9b, 0));
  }

  lemma LowPrefixes(s: seq<Octet>)
    requires |s| == 16
    ensures InPrefix(Value(s), IPV4_MAPPED, 96, 128) <==> s[..12] == MAPPED
    ensures Value(s) / Pow2(32) == 0 <==> s[..12] == Zeros(12)
  {
    Powers();
    ValueOfZeros(10);
    ValueOfTwo([0xff, 0xff]);
    ValueAppend(Zeros(10), [0xff, 0xff]);
    PrefixIs(s, MAPPED, IPV4_MAPPED);
    ValueOfZeros(12);
    ValueSplit(s, 4);
    ValueInjective(s[..12], Zeros(12));
  }

  /** A quotient by a power of two, taken in two steps. */
  lemma DivideTwice(a: nat, j: nat, k: nat)
    ensures a / Pow2(j + k) == a / Pow2(j) / Pow2(k)
  {
    var q := a / Pow2(j) / Pow2(k);
    Pow2Divides(j, j + k);
    FloorBelow(a, Pow2(j));
    FloorBelow(a / Pow2(j), Pow2(k));
    MulAssociates(q, Pow2(k), Pow2(j));
    DivideBound(a, a / Pow2(j), q, Pow2(j), Pow2(k));
    QuotientUnique(a, Pow2(j + k), q);
  }

  lemma DivideBound(a: nat, m: nat, q: nat, x: nat, y: nat)
    requires Times(m, x) <= a < Times(m, x) + x && Times(q, y) <= m < Times(q, y) + y
    ensures Times(Times(q, y), x) <= a < Times(Times(q, y), x) + Times(y, x)
  {
    MulMonotone(Times(q, y), m, x);
    MulMonotone(m + 1, Times(q, y) + y, x);
    assert (m + 1) * x == m * x + x;
    assert (Times(q, y) + y) * x == Times(q, y) * x + y * x;
  }

  lemma ValueOfThree(o: seq<Octet>)
    requires |o| == 3
    ensures Value(o) == Quad(0, o[0], o[1], o[2])
  {
    assert o[..2][0] == o[0] && o[..2][1] == o[1];
    ValueOfTwo(o[..2]);
  }

  lemma FirstThreeBits(s: seq<Octet>)
    requires |s| == 16
    ensures Value(s) / Pow2(125) == s[0] / 32
  {
    DivideTwice(Value(s), 120, 5);
    ValueSplit(s, 15);
    assert Value(s[..1]) == s[0] by { assert s[..1][..0] == []; }
    assert Pow2(5) == 32;
  }

  /** The first three octets, without their last bits. */
  lemma FirstOctets(s: seq<Octet>, bits: nat)
    requires |s| == 16
    ensures Value(s) / Pow2(104 + bits) == Quad(0, s[0], s[1], s[2]) / Pow2(bits)
  {
    DivideTwice(Value(s), 104, bits);
    ValueSplit(s, 13);
    ValueOfThree(s[..3]);
  }

  lemma Halved(a: Octet, b: Octet, c: Octet)
    ensures Quad(0, a, b, c) / 2 == 0x10_0080 <==> a == 0x20 && b == 0x01 && c <= 1
  {
  }

  lemma Sixteenth(a: Octet, b: Octet, c: Octet)
    ensures Quad(0, a, b, c) / 16 == 0x3_fff0 <==> a == 0x3f && b == 0xff && c <= 0x0f
  {
  }

  /** Prefixes that end within an octet. */
  lemma GlobalUnicast(s: seq<Octet>)
    requires |s| == 16
    ensures InPrefix(Value(s), Groups(0x2000, 0, 0), 3, 128) <==> 0x20 <= s[0] <= 0x3f
  {
    LargePowers();
    FirstThreeBits(s);
    assert Groups(0x2000, 0, 0) / Pow2(125) == 1;
  }

  lemma ProtocolAssignments(s: seq<Octet>)
    requires |s| == 16
    ensures InPrefix(Value(s), Groups(0x2001, 0, 0), 23, 128) <==> s[0] == 0x20 && s[1] == 0x01 && s[2] <= 1
  {
    LargePowers();
    FirstOctets(s, 1);
    assert Pow2(1) == 2;
    assert Groups(0x2001, 0, 0) / Pow2(105) == 0x10_0080;
    Halved(s[0], s[1], s[2]);
  }

  lemma Documentation20(s: seq<Octet>)
    requires |s| == 16
    ensures InPrefix(Value(s), Groups(0x3fff, 0, 0), 20, 128) <==> s[0] == 0x3f && s[1] == 0xff && s[2] <= 0x0f
  {
    LargePowers();
    FirstOctets(s, 4);
    assert Pow2(4) == 16;
    assert Groups(0x3fff, 0, 0) / Pow2(108) == 0x3_fff0;
    Sixteenth(s[0], s[1], s[2]);
  }

  // ---- IPv6

  function Complement(o: seq<Octet>): (c: seq<Octet>)
    ensures |c| == |o|
  {
    seq(|o|, i requires 0 <= i < |o| => (255 - o[i]) as Octet)
  }

  /** What is decided on an address outside of the configured prefixes: an address that carries an IPv4
      address gets its decision, and the others are decided by their range. */
  function Meant(s: seq<Octet>): Decision
    requires |s| == 16
  {
    if s[..12] == MAPPED || s[..12] == Zeros(12) || s[..12] == WELL_KNOWN then Carried(s[12..])
    else if s[..2] == SIX_TO_FOUR then Carried(s[2..6])
    else if s[..4] == TEREDO then
      if Special(s[4..8]) then Denied(TeredoServer)
      else if Special(Complement(s[12..])) then Denied(TeredoClient)
      else Allowed
    else if s[..6] == LOCAL_USE then Denied(LocalUseNat64)
    else if s[0] < 0x20 || 0x3f < s[0] then Denied(Ipv6OutsideGlobalUnicast)
    else if (s[0] == 0x20 && s[1] == 0x01 && (s[2] <= 1 || (s[2] == 0x0d && s[3] == 0xb8)))
         || (s[0] == 0x3f && s[1] == 0xff && s[2] <= 0x0f) then Denied(Ipv6Special)
    else Allowed
  }

  lemma LastFour(s: seq<Octet>)
    requires |s| == 16
    ensures Value(s) % 0x1_0000_0000 == Value(s[12..])
  {
    Powers();
    ValueSplit(s, 4);
  }

  lemma ComplementOfFour(o: seq<Octet>)
    requires |o| == 4
    ensures Value(Complement(o)) == 0xffff_ffff - Value(o)
  {
    ValueOfFour(o);
    ValueOfFour(Complement(o));
  }

  lemma TeredoDecision(s: seq<Octet>, a: Ipv6)
    requires |s| == 16 && a == Value(s)
    ensures ClassifyTeredo(a) ==
      if Special(s[4..8]) then Denied(TeredoServer)
      else if Special(Complement(s[12..])) then Denied(TeredoClient)
      else Allowed
  {
    Powers();
    ValueSlice(s, 4, 8);
    LastFour(s);
    ComplementOfFour(s[12..]);
    Ipv4Decision(s[4..8]);
    Ipv4Decision(Complement(s[12..]));
  }

  lemma OtherDecision(s: seq<Octet>, a: Ipv6)
    requires |s| == 16 && a == Value(s)
    requires s[..12] != MAPPED && s[..12] != Zeros(12) && s[..12] != WELL_KNOWN
    ensures ClassifyOther(a) == Meant(s)
  {
    ShortPrefixes(s);
    LocalUsePrefix(s);
    GlobalUnicast(s);
    ProtocolAssignments(s);
    Documentation20(s);
    TeredoDecision(s, a);
    Powers();
    ValueSlice(s, 2, 6);
    CarriedDecision(s[2..6]);
    NativeOctets(s);
  }

  lemma NativeOctets(s: seq<Octet>)
    requires |s| == 16
    ensures s[..4] == DOCUMENTATION <==> s[0] == 0x20 && s[1] == 0x01 && s[2] == 0x0d && s[3] == 0xb8
  {
  }

  /** Outside of the configured prefixes an IPv6 address is decided on as its octets say. */
  lemma Ipv6Decision(prefixes: seq<Net>, s: seq<Octet>)
    requires |s| == 16 && Usable(prefixes)
    requires forall i :: 0 <= i < |prefixes| ==> !Contains(prefixes[i], Value(s))
    ensures Value(s) < 0x1_0000_0000_0000_0000_0000_0000_0000_0000
    ensures Classify(prefixes, V6(Value(s))) == Meant(s)
  {
    ValueIsAddress(s);
    NoMatch(prefixes, Value(s));
    LowPrefixes(s);
    WellKnownPrefix(s);
    LastFour(s);
    CarriedDecision(s[12..]);
    if s[..12] != MAPPED && s[..12] != Zeros(12) && s[..12] != WELL_KNOWN {
      OtherDecision(s, Value(s));
    }
  }

  /** Under an accepted list an address embedded in a configured prefix gets the decision of the IPv4
      address that it carries. */
  lemma ConfiguredDecision(prefixes: seq<Net>, k: nat, prefix: seq<Octet>, v4: seq<Octet>, suffix: seq<Octet>)
    requires Acceptable(prefixes) && k < |prefixes| && |v4| == 4 && |prefix| in {4, 5, 6, 7, 8, 12}
    requires |suffix| == if |prefix| == 12 then 0 else 11 - |prefix|
    requires prefixes[k].len == 8 * |prefix| && prefixes[k].addr / Size(prefixes[k]) == Value(prefix)
    ensures Usable(prefixes)
    ensures Value(Embed(prefix, v4, suffix)) < 0x1_0000_0000_0000_0000_0000_0000_0000_0000
    ensures Classify(prefixes, V6(Value(Embed(prefix, v4, suffix)))) == Carried(v4)
  {
    EmbeddedDecision(prefixes, k, prefix, v4, suffix);
    CarriedDecision(v4);
  }

  /** An address of a configured prefix of at most 64 bits is refused when its reserved octet is set. */
  lemma ReservedOctetRefused(prefixes: seq<Net>, k: nat, s: seq<Octet>)
    requires Acceptable(prefixes) && k < |prefixes| && |s| == 16
    requires Contains(prefixes[k], Value(s)) && prefixes[k].len <= 64 && s[8] != 0
    ensures Usable(prefixes) && Value(s) < 0x1_0000_0000_0000_0000_0000_0000_0000_0000
    ensures Classify(prefixes, V6(Value(s))) == Denied(Nat64UOctet)
  {
    ValueIsAddress(s);
    ReservedOctet(s);
    ClassifyConfigured(prefixes, k, Value(s));
  }
}
