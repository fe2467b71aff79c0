/** Configured NAT64 prefixes and the classification of addresses (`src/feeds/address_policy.rs`).
    Addresses are numbers: a shift to the right is a division by a power of two, a mask of low bits a
    remainder, and the comparison of two masked addresses a comparison of quotients. */
module AddressPolicy {
  import opened Outcomes

  type Ipv4 = a: nat | a < 0x1_0000_0000
  type Ipv6 = a: nat | a < 0x1_0000_0000_0000_0000_0000_0000_0000_0000

  datatype DenyReason =
    | Ipv4Special | EmbeddedIpv4 | Nat64UOctet | TeredoServer | TeredoClient | LocalUseNat64
    | Ipv6OutsideGlobalUnicast | Ipv6Special

  datatype Decision = Allowed | Denied(reason: DenyReason)

  datatype Failure = InvalidPrefixLength | NonCanonical | SpecialRange | NonZeroUOctet | OutsideAllowedIpv6 | Overlap

  const SUPPORTED_PREFIX_LENGTHS: seq<nat> := [32, 40, 48, 56, 64, 96]

  function Pow2(k: nat): (p: nat)
    ensures p >= 1
  {
    if k == 0 then 1 else 2 * Pow2(k - 1)
  }

  function Times(x: nat, y: nat): nat {
    x * y
  }

  /** An address without its low bits. */
  function Floor(a: nat, unit: nat): nat
    requires unit >= 1
  {
    Times(a / unit, unit)
  }

  // ---- blocks

  /** An address with a prefix length. */
  datatype Net = Net(addr: Ipv6, len: nat)

  predicate WellFormed(p: Net) {
    p.len <= 128
  }

  function Size(p: Net): (size: nat)
    requires WellFormed(p)
    ensures size >= 1
  {
    Pow2(128 - p.len)
  }

  function Network(p: Net): nat
    requires WellFormed(p)
  {
    Floor(p.addr, Size(p))
  }

  function LastAddress(p: Net): nat
    requires WellFormed(p)
  {
    Network(p) + Size(p) - 1
  }

  /** The block holds the addresses from its network address to its last one. */
  predicate Contains(p: Net, a: nat)
    requires WellFormed(p)
  {
    Network(p) <= a <= LastAddress(p)
  }

  ghost predicate Disjoint(p: Net, q: Net)
    requires WellFormed(p) && WellFormed(q)
  {
    forall a: nat :: !(Contains(p, a) && Contains(q, a))
  }

  /** The test that the code makes: each block looks for the other's network address. */
  predicate Touches(p: Net, q: Net)
    requires WellFormed(p) && WellFormed(q)
  {
    Contains(p, Network(q)) || Contains(q, Network(p))
  }

  lemma Pow2Divides(j: nat, k: nat)
    requires j <= k
    ensures Pow2(k) == Times(Pow2(k - j), Pow2(j))
  {
    if j < k {
      Pow2Divides(j, k - 1);
    }
  }

  /** Of two different multiples of a unit the smaller lies a whole unit below. */
  lemma MultiplesApart(unit: nat, m: nat, n: nat)
    requires unit >= 1 && Times(n, unit) < Times(m, unit)
    ensures Times(n, unit) + unit <= Times(m, unit)
  {
    if n < m {
      MulMonotone(n + 1, m, unit);
      assert (n + 1) * unit == n * unit + unit;
    } else {
      MulMonotone(m, n, unit);
      assert false;
    }
  }

  lemma MulMonotone(x: nat, y: nat, z: nat)
    requires x <= y
    ensures x * z <= y * z
  {
  }

  lemma MulAssociates(x: nat, y: nat, z: nat)
    ensures Times(x, Times(y, z)) == Times(Times(x, y), z)
  {
  }

  lemma SizesDivide(p: Net, q: Net)
    requires WellFormed(p) && WellFormed(q) && p.len <= q.len
    ensures Size(p) == Times(Pow2(q.len - p.len), Size(q))
  {
    Pow2Divides(128 - q.len, 128 - p.len);
  }

  /** Blocks are nested or disjoint, so that a common address gives away the smaller block's network
      address. */
  lemma CommonAddress(p: Net, q: Net, a: nat)
    requires WellFormed(p) && WellFormed(q) && p.len <= q.len && Contains(p, a) && Contains(q, a)
    ensures Contains(p, Network(q))
  {
    SizesDivide(p, q);
    MulAssociates(p.addr / Size(p), Pow2(q.len - p.len), Size(q));
    if Network(q) < Network(p) {
      MultiplesApart(Size(q), Times(p.addr / Size(p), Pow2(q.len - p.len)), q.addr / Size(q));
      assert false;
    }
  }

  /** The two-point test tells exactly whether two blocks share an address. */
  lemma TwoPointsSuffice(p: Net, q: Net)
    requires WellFormed(p) && WellFormed(q)
    ensures Touches(p, q) <==> !Disjoint(p, q)
  {
    if Touches(p, q) {
      assert Contains(p, Network(p)) && Contains(q, Network(q));
    }
    if !Disjoint(p, q) {
      var a: nat :| Contains(p, a) && Contains(q, a);
      if p.len <= q.len { CommonAddress(p, q, a); } else { CommonAddress(q, p, a); }
    }
  }

  // ---- classification

  /** `in_ipv4_prefix` and `in_ipv6_prefix`. */
  predicate InPrefix(a: nat, network: nat, length: nat, width: nat)
    requires length <= width
  {
    a / Pow2(width - length) == network / Pow2(width - length)
  }

  function Quad(a: nat, b: nat, c: nat, d: nat): nat {
    ((a * 256 + b) * 256 + c) * 256 + d
  }

  const DENIED_IPV4: seq<(nat, nat)> := [
    (Quad(0, 0, 0, 0), 8), (Quad(10, 0, 0, 0), 8), (Quad(100, 64, 0, 0), 10), (Quad(127, 0, 0, 0), 8),
    (Quad(169, 254, 0, 0), 16), (Quad(172, 16, 0, 0), 12), (Quad(192, 0, 0, 0), 24), (Quad(192, 0, 2, 0), 24),
    (Quad(192, 88, 99, 0), 24), (Quad(192, 168, 0, 0), 16), (Quad(198, 18, 0, 0), 15), (Quad(198, 51, 100, 0), 24),
    (Quad(203, 0, 113, 0), 24), (Quad(224, 0, 0, 0), 4), (Quad(240, 0, 0, 0), 4)]

  function ClassifyNativeIpv4(a: Ipv4): Decision {
    if exists i :: 0 <= i < |DENIED_IPV4| && DENIED_IPV4[i].1 <= 32 && InPrefix(a, DENIED_IPV4[i].0, DENIED_IPV4[i].1, 32)
    then Denied(Ipv4Special) else Allowed
  }

  function ClassifyEmbeddedIpv4(a: Ipv4): Decision {
    if ClassifyNativeIpv4(a).Allowed? then Allowed else Denied(EmbeddedIpv4)
  }

  /** The first three groups of sixteen bits; the others are zero. */
  function Groups(a: nat, b: nat, c: nat): Ipv6
    requires a <= 0xffff && b <= 0xffff && c <= 0xffff
  {
    ((a * 0x1_0000 + b) * 0x1_0000 + c) * 0x1_0000_0000_0000_0000_0000
  }

  const IPV4_MAPPED: Ipv6 := 0xffff_0000_0000

  predicate NativeIpv6Allowed(a: nat) {
    && InPrefix(a, Groups(0x2000, 0, 0), 3, 128)
    && !InPrefix(a, Groups(0x2001, 0, 0), 23, 128)
    && !InPrefix(a, Groups(0x2001, 0xdb8, 0), 32, 128)
    && !InPrefix(a, Groups(0x3fff, 0, 0), 20, 128)
  }

  const SPECIAL_RANGES: seq<Net> := [
    Net(0, 96), Net(IPV4_MAPPED, 96), Net(Groups(0x64, 0xff9b, 0), 96), Net(Groups(0x64, 0xff9b, 1), 48),
    Net(Groups(0x2002, 0, 0), 16), Net(Groups(0x2001, 0, 0), 32), Net(Groups(0x2001, 0, 0), 23),
    Net(Groups(0x2001, 0xdb8, 0), 32), Net(Groups(0x3fff, 0, 0), 20)]

  predicate OverlapsSpecialRange(p: Net)
    requires WellFormed(p)
  {
    exists i :: 0 <= i < |SPECIAL_RANGES| && WellFormed(SPECIAL_RANGES[i]) && Touches(SPECIAL_RANGES[i], p)
  }

  function UOctet(a: nat): nat {
    a / Pow2(56) % 256
  }

  /** `extract_rfc6052`. */
  function ExtractRfc6052(a: Ipv6, length: nat): Ipv4
    requires length in SUPPORTED_PREFIX_LENGTHS
  {
    if length == 32 then a / Pow2(64) % 0x1_0000_0000
    else if length == 40 then (a / Pow2(64) % 0x100_0000) * 0x100 + a / Pow2(48) % 0x100
    else if length == 48 then (a / Pow2(64) % 0x1_0000) * 0x1_0000 + a / Pow2(40) % 0x1_0000
    else if length == 56 then (a / Pow2(64) % 0x100) * 0x100_0000 + a / Pow2(32) % 0x100_0000
    else if length == 64 then a / Pow2(24) % 0x1_0000_0000
    else a % 0x1_0000_0000
  }

  /** The decision of the first configured prefix that holds the address. */
  function ClassifyNat64(prefixes: seq<Net>, a: Ipv6): Option<Decision>
    requires forall i :: 0 <= i < |prefixes| ==> WellFormed(prefixes[i]) && prefixes[i].len in SUPPORTED_PREFIX_LENGTHS
  {
    if prefixes == [] then None
    else if Contains(prefixes[0], a) then
      if prefixes[0].len <= 64 && UOctet(a) != 0 then Some(Denied(Nat64UOctet))
      else Some(ClassifyEmbeddedIpv4(ExtractRfc6052(a, prefixes[0].len)))
    else ClassifyNat64(prefixes[1..], a)
  }

  function ClassifyTeredo(a: Ipv6): Decision {
    if !ClassifyNativeIpv4(a / Pow2(64) % 0x1_0000_0000).Allowed? then Denied(TeredoServer)
    else if !ClassifyNativeIpv4(0xffff_ffff - a % 0x1_0000_0000).Allowed? then Denied(TeredoClient)
    else Allowed
  }

  function ClassifyOther(a: Ipv6): Decision {
    if InPrefix(a, Groups(0x2002, 0, 0), 16, 128) then ClassifyEmbeddedIpv4(a / Pow2(80) % 0x1_0000_0000)
    else if InPrefix(a, Groups(0x2001, 0, 0), 32, 128) then ClassifyTeredo(a)
    else if InPrefix(a, Groups(0x64, 0xff9b, 1), 48, 128) then Denied(LocalUseNat64)
    else if NativeIpv6Allowed(a) then Allowed
    else if !InPrefix(a, Groups(0x2000, 0, 0), 3, 128) then Denied(Ipv6OutsideGlobalUnicast)
    else Denied(Ipv6Special)
  }

  predicate Usable(prefixes: seq<Net>) {
    forall i :: 0 <= i < |prefixes| ==> WellFormed(prefixes[i]) && prefixes[i].len in SUPPORTED_PREFIX_LENGTHS
  }

  /** `classify_ipv6`. */
  function ClassifyIpv6(prefixes: seq<Net>, a: Ipv6): Decision
    requires Usable(prefixes)
  {
    if InPrefix(a, IPV4_MAPPED, 96, 128) then ClassifyEmbeddedIpv4(a % 0x1_0000_0000)
    else if a / Pow2(32) == 0 then ClassifyEmbeddedIpv4(a % 0x1_0000_0000)
    else if InPrefix(a, Groups(0x64, 0xff9b, 0), 96, 128) then ClassifyEmbeddedIpv4(a % 0x1_0000_0000)
    else
      var nat64 := ClassifyNat64(prefixes, a);
      if nat64.Some? then nat64.value else ClassifyOther(a)
  }

  datatype IpAddr = V4(v4: Ipv4) | V6(v6: Ipv6)

  function Classify(prefixes: seq<Net>, address: IpAddr): Decision
    requires Usable(prefixes)
  {
    match address
    case V4(a) => ClassifyNativeIpv4(a)
    case V6(a) => ClassifyIpv6(prefixes, a)
  }

  // ---- accepting prefixes

  /** What is wrong with a prefix by itself. */
  function OwnFault(p: Net): Option<Failure> {
    if !(p.len in SUPPORTED_PREFIX_LENGTHS) || p.len > 128 then Some(InvalidPrefixLength)
    else if p.addr != Network(p) then Some(NonCanonical)
    else if OverlapsSpecialRange(p) then Some(SpecialRange)
    else if p.len == 96 && UOctet(p.addr) != 0 then Some(NonZeroUOctet)
    else if !NativeIpv6Allowed(Network(p)) || !NativeIpv6Allowed(LastAddress(p)) then Some(OutsideAllowedIpv6)
    else None
  }

  ghost predicate AllValid(prefixes: seq<Net>) {
    forall i :: 0 <= i < |prefixes| ==> OwnFault(prefixes[i]).None?
  }

  ghost predicate PairwiseDisjoint(prefixes: seq<Net>)
    requires AllValid(prefixes)
  {
    forall i, j :: 0 <= i < j < |prefixes| ==> Disjoint(prefixes[i], prefixes[j])
  }

  ghost predicate Acceptable(prefixes: seq<Net>) {
    AllValid(prefixes) && PairwiseDisjoint(prefixes)
  }

  /** The prefix accepted earlier with which a new one overlaps, if there is one. */
  method FindOverlap(validated: seq<Net>, prefix: Net) returns (found: Option<nat>)
    requires WellFormed(prefix) && forall k :: 0 <= k < |validated| ==> WellFormed(validated[k])
    ensures found.Some? ==> found.value < |validated| && Touches(validated[found.value], prefix)
    ensures found.None? ==> forall k :: 0 <= k < |validated| ==> !Touches(validated[k], prefix)
  {
    for k := 0 to |validated|
      invariant forall m :: 0 <= m < k ==> !Touches(validated[m], prefix)
    {
      if Contains(validated[k], Network(prefix)) || Contains(prefix, Network(validated[k])) {
        return Some(k);
      }
    }
    return None;
  }

  /** A list of prefixes is accepted exactly when each of them is valid and no two of them share an
      address; otherwise the error is that of the first prefix that does not fit. */
  method WithNat64Prefixes(prefixes: seq<Net>) returns (result: Result<seq<Net>, Failure>)
    ensures result.Ok? <==> Acceptable(prefixes)
    ensures result.Ok? ==> result.value == prefixes
    ensures result.Err? ==> exists i :: 0 <= i < |prefixes| && FirstFault(prefixes, i, result.error)
  {
    var validated: seq<Net> := [];
    for i := 0 to |prefixes|
      invariant validated == prefixes[..i]
      invariant Acceptable(prefixes[..i])
    {
      var prefix := prefixes[i];
      var fault := OwnFault(prefix);
      if fault.Some? {
        FaultRefuses(prefixes, i, fault.value);
        return Err(fault.value);
      }
      var overlap := FindOverlap(validated, prefix);
      if overlap.Some? {
        OverlapIsFault(prefixes, i, overlap.value);
        return Err(Overlap);
      }
      AcceptableMore(prefixes, i);
      validated := validated + [prefix];
    }
    assert prefixes[..|prefixes|] == prefixes;
    return Ok(validated);
  }

  /** The prefixes before the i-th are acceptable, and this is what is wrong with the i-th. */
  ghost predicate FirstFault(prefixes: seq<Net>, i: nat, failure: Failure)
    requires i < |prefixes|
  {
    && Acceptable(prefixes[..i])
    && if OwnFault(prefixes[i]).Some? then OwnFault(prefixes[i]) == Some(failure)
       else failure == Overlap && exists k :: 0 <= k < i && Share(prefixes[k], prefixes[i])
  }

  /** Two blocks have an address in common. */
  ghost predicate Share(p: Net, q: Net) {
    WellFormed(p) && WellFormed(q) && !Disjoint(p, q)
  }

  lemma FaultRefuses(prefixes: seq<Net>, i: nat, failure: Failure)
    requires i < |prefixes| && Acceptable(prefixes[..i]) && OwnFault(prefixes[i]) == Some(failure)
    ensures FirstFault(prefixes, i, failure) && !Acceptable(prefixes)
  {
  }

  lemma OverlapIsFault(prefixes: seq<Net>, i: nat, k: nat)
    requires k < i < |prefixes| && Acceptable(prefixes[..i]) && OwnFault(prefixes[i]).None?
    requires OwnFault(prefixes[k]).None? && Touches(prefixes[k], prefixes[i])
    ensures FirstFault(prefixes, i, Overlap) && !Acceptable(prefixes)
  {
    TwoPointsSuffice(prefixes[k], prefixes[i]);
  }

  lemma ValidMore(prefixes: seq<Net>, i: nat)
    requires i < |prefixes| && AllValid(prefixes[..i]) && OwnFault(prefixes[i]).None?
    ensures AllValid(prefixes[..i + 1])
  {
    var more := prefixes[..i + 1];
    forall m | 0 <= m < |more|
      ensures OwnFault(more[m]).None?
    {
      assert m < i ==> more[m] == prefixes[..i][m];
    }
  }

  lemma DisjointBefore(prefixes: seq<Net>, i: nat, m: nat, n: nat)
    requires m < n < i <= |prefixes| && AllValid(prefixes[..i]) && PairwiseDisjoint(prefixes[..i])
    ensures WellFormed(prefixes[m]) && WellFormed(prefixes[n]) && Disjoint(prefixes[m], prefixes[n])
  {
    assert prefixes[..i][m] == prefixes[m] && prefixes[..i][n] == prefixes[n];
  }

  lemma AcceptableMore(prefixes: seq<Net>, i: nat)
    requires i < |prefixes| && Acceptable(prefixes[..i]) && OwnFault(prefixes[i]).None?
    requires forall m :: 0 <= m < i ==> !Touches(prefixes[..i][m], prefixes[i])
    ensures Acceptable(prefixes[..i + 1])
  {
    var more := prefixes[..i + 1];
    ValidMore(prefixes, i);
    forall m, n | 0 <= m < n < |more|
      ensures Disjoint(more[m], more[n])
    {
      if n < i {
        DisjointBefore(prefixes, i, m, n);
      } else {
        assert more[m] == prefixes[..i][m];
        TwoPointsSuffice(more[m], more[n]);
      }
    }
  }

  // ---- what an accepted prefix covers

  lemma MulGap(x: nat, y: nat, z: nat)
    requires x < y
    ensures Times(x, z) + z <= Times(y, z)
  {
    MulMonotone(x + 1, y, z);
    assert (x + 1) * z == x * z + z;
  }

  lemma QuotientUnique(a: nat, unit: nat, q: nat)
    requires unit >= 1 && Times(q, unit) <= a < Times(q, unit) + unit
    ensures a / unit == q
  {
    FloorBelow(a, unit);
    if a / unit < q {
      MulGap(a / unit, q, unit);
    } else if q < a / unit {
      MulGap(q, a / unit, unit);
    }
  }

  lemma FloorBelow(a: nat, unit: nat)
    requires unit >= 1
    ensures Floor(a, unit) <= a < Floor(a, unit) + unit
  {
    assert a == unit * (a / unit) + a % unit;
  }

  /** Comparing masked addresses tells membership in the block. */
  lemma PrefixIsBlock(a: nat, p: Net)
    requires WellFormed(p)
    ensures InPrefix(a, p.addr, p.len, 128) <==> Contains(p, a)
  {
    FloorBelow(a, Size(p));
    if Contains(p, a) {
      QuotientUnique(a, Size(p), p.addr / Size(p));
    }
  }

  lemma TimesNext(m: nat, unit: nat)
    ensures Times(m + 1, unit) == Times(m, unit) + unit
  {
  }

  lemma NestedEnds(p: Net, q: Net)
    requires WellFormed(p) && WellFormed(q) && p.len <= q.len && Network(q) < Network(p) + Size(p)
    ensures Network(q) + Size(q) <= Network(p) + Size(p)
  {
    SizesDivide(p, q);
    NestedUnits(p.addr / Size(p), q.addr / Size(q), Pow2(q.len - p.len), Size(q), Size(p));
  }

  lemma Nested(p: Net, q: Net, a: nat)
    requires WellFormed(p) && WellFormed(q) && p.len <= q.len && Contains(p, Network(q)) && Contains(q, a)
    ensures Contains(p, a)
  {
    NestedEnds(p, q);
  }

  /** A unit that begins before the end of a larger block ends within it. */
  lemma NestedUnits(m: nat, n: nat, k: nat, unit: nat, size: nat)
    requires unit >= 1 && size == Times(k, unit) && Times(n, unit) < Times(m, size) + size
    ensures Times(n, unit) + unit <= Times(m, size) + size
  {
    NextInUnits(m, k, unit, size);
    MultiplesApart(unit, Times(m + 1, k), n);
  }

  lemma NextInUnits(m: nat, k: nat, unit: nat, size: nat)
    requires size == Times(k, unit)
    ensures Times(m, size) + size == Times(Times(m + 1, k), unit)
  {
    MulAssociates(m + 1, k, unit);
    TimesNext(m, size);
  }

  lemma SpecialsWellFormed(i: nat)
    requires i < |SPECIAL_RANGES|
    ensures WellFormed(SPECIAL_RANGES[i])
  {
  }

  lemma AvoidsSpecial(p: Net, a: nat, i: nat)
    requires OwnFault(p).None? && Contains(p, a) && i < |SPECIAL_RANGES|
    ensures WellFormed(SPECIAL_RANGES[i]) && !InPrefix(a, SPECIAL_RANGES[i].addr, SPECIAL_RANGES[i].len, 128)
  {
    SpecialsWellFormed(i);
    TwoPointsSuffice(SPECIAL_RANGES[i], p);
    PrefixIsBlock(a, SPECIAL_RANGES[i]);
  }

  /** An accepted prefix lies in the global unicast range, and meets none of the special ranges. */
  lemma AcceptedIsGlobal(p: Net, a: nat)
    requires OwnFault(p).None? && Contains(p, a)
    ensures NativeIpv6Allowed(a)
    ensures forall i :: 0 <= i < |SPECIAL_RANGES| ==>
      WellFormed(SPECIAL_RANGES[i]) && !InPrefix(a, SPECIAL_RANGES[i].addr, SPECIAL_RANGES[i].len, 128)
  {
    forall i: nat | i < |SPECIAL_RANGES|
      ensures WellFormed(SPECIAL_RANGES[i]) && !InPrefix(a, SPECIAL_RANGES[i].addr, SPECIAL_RANGES[i].len, 128)
    {
      AvoidsSpecial(p, a, i);
    }
    AcceptedIsUnicast(p, a);
    NotReserved(p, a);
  }

  lemma NotReserved(p: Net, a: nat)
    requires OwnFault(p).None? && Contains(p, a)
    ensures !InPrefix(a, Groups(0x2001, 0, 0), 23, 128) && !InPrefix(a, Groups(0x2001, 0xdb8, 0), 32, 128)
    ensures !InPrefix(a, Groups(0x3fff, 0, 0), 20, 128)
  {
    ReservedRanges();
    AvoidsSpecial(p, a, 6);
    AvoidsSpecial(p, a, 7);
    AvoidsSpecial(p, a, 8);
  }

  lemma ReservedRanges()
    ensures SPECIAL_RANGES[6] == Net(Groups(0x2001, 0, 0), 23)
    ensures SPECIAL_RANGES[7] == Net(Groups(0x2001, 0xdb8, 0), 32)
    ensures SPECIAL_RANGES[8] == Net(Groups(0x3fff, 0, 0), 20)
  {
  }

  lemma AcceptedIsUnicast(p: Net, a: nat)
    requires OwnFault(p).None? && Contains(p, a)
    ensures InPrefix(a, Groups(0x2000, 0, 0), 3, 128)
  {
    var unicast := Net(Groups(0x2000, 0, 0), 3);
    PrefixIsBlock(Network(p), unicast);
    Nested(unicast, p, a);
    PrefixIsBlock(a, unicast);
  }

  // ---- classification under accepted prefixes

  function Nat64Decision(p: Net, a: Ipv6): Decision
    requires p.len in SUPPORTED_PREFIX_LENGTHS
  {
    if p.len <= 64 && UOctet(a) != 0 then Denied(Nat64UOctet) else ClassifyEmbeddedIpv4(ExtractRfc6052(a, p.len))
  }

  lemma {:induction false} FirstMatch(prefixes: seq<Net>, k: nat, a: Ipv6)
    requires Acceptable(prefixes) && k < |prefixes| && Contains(prefixes[k], a)
    ensures Usable(prefixes) && ClassifyNat64(prefixes, a) == Some(Nat64Decision(prefixes[k], a))
    decreases k
  {
    AcceptableIsUsable(prefixes);
    if k > 0 {
      AcceptableTail(prefixes);
      FirstMatch(prefixes[1..], k - 1, a);
      NotInFirst(prefixes, k, a);
    }
  }

  lemma NotInFirst(prefixes: seq<Net>, k: nat, a: nat)
    requires Acceptable(prefixes) && 0 < k < |prefixes| && Contains(prefixes[k], a)
    ensures !Contains(prefixes[0], a)
  {
    assert Disjoint(prefixes[0], prefixes[k]);
  }

  lemma AcceptableTail(prefixes: seq<Net>)
    requires prefixes != [] && Acceptable(prefixes)
    ensures Acceptable(prefixes[1..])
  {
    var rest := prefixes[1..];
    assert forall i :: 0 <= i < |rest| ==> rest[i] == prefixes[i + 1];
    forall i, j | 0 <= i < j < |rest|
      ensures Disjoint(rest[i], rest[j])
    {
      assert Disjoint(prefixes[i + 1], prefixes[j + 1]);
    }
  }

  lemma AcceptableIsUsable(prefixes: seq<Net>)
    requires Acceptable(prefixes)
    ensures Usable(prefixes)
  {
  }

  lemma {:induction false} NoMatch(prefixes: seq<Net>, a: Ipv6)
    requires Usable(prefixes) && forall i :: 0 <= i < |prefixes| ==> !Contains(prefixes[i], a)
    ensures ClassifyNat64(prefixes, a) == None
  {
    if prefixes != [] {
      NoMatch(prefixes[1..], a);
    }
  }

  /** An address in an accepted prefix gets exactly the decision of that prefix: the built-in ranges do
      not reach it, and no other prefix can claim it. */
  lemma ClassifyConfigured(prefixes: seq<Net>, k: nat, a: Ipv6)
    requires Acceptable(prefixes) && k < |prefixes| && Contains(prefixes[k], a)
    ensures Usable(prefixes) && Classify(prefixes, V6(a)) == Nat64Decision(prefixes[k], a)
  {
    FirstMatch(prefixes, k, a);
    NotBuiltIn(prefixes[k], a);
  }

  /** The ranges looked at before the configured prefixes. */
  lemma NotBuiltIn(p: Net, a: nat)
    requires OwnFault(p).None? && Contains(p, a)
    ensures !InPrefix(a, IPV4_MAPPED, 96, 128) && a / Pow2(32) != 0 && !InPrefix(a, Groups(0x64, 0xff9b, 0), 96, 128)
  {
    BuiltInRanges();
    NotCompatible(p, a);
    AvoidsSpecial(p, a, 1);
    AvoidsSpecial(p, a, 2);
  }

  lemma BuiltInRanges()
    ensures SPECIAL_RANGES[0] == Net(0, 96)
    ensures SPECIAL_RANGES[1] == Net(IPV4_MAPPED, 96)
    ensures SPECIAL_RANGES[2] == Net(Groups(0x64, 0xff9b, 0), 96)
  {
  }

  lemma NotCompatible(p: Net, a: nat)
    requires OwnFault(p).None? && Contains(p, a)
    ensures a / Pow2(32) != 0
  {
    BuiltInRanges();
    AvoidsSpecial(p, a, 0);
    QuotientUnique(0, Pow2(32), 0);
  }

  /** An address in no configured prefix is classified as if there were none. */
  lemma ClassifyUnconfigured(prefixes: seq<Net>, a: Ipv6)
    requires Usable(prefixes) && forall i :: 0 <= i < |prefixes| ==> !Contains(prefixes[i], a)
    ensures Classify(prefixes, V6(a)) == Classify([], V6(a))
  {
    NoMatch(prefixes, a);
  }

  // ---- a prefix that is accepted

  lemma Powers()
    ensures Pow2(8) == 0x100 && Pow2(16) == 0x1_0000 && Pow2(24) == 0x100_0000 && Pow2(32) == 0x1_0000_0000
  {
    assert Pow2(8) == 0x100;
    Pow2Divides(8, 16);
    Pow2Divides(8, 24);
    Pow2Divides(16, 32);
  }

  lemma Pow2Of128()
    ensures Pow2(64) == 0x1_0000_0000_0000_0000
    ensures Pow2(128) == 0x1_0000_0000_0000_0000_0000_0000_0000_0000
  {
    Powers();
    Pow2Divides(32, 64);
    assert Times(Pow2(32), Pow2(32)) == 0x1_0000_0000_0000_0000;
    Pow2Divides(64, 128);
  }

  lemma LargePowers()
    ensures Pow2(96) == 0x1_0000_0000_0000_0000_0000_0000
    ensures Pow2(105) == 0x200_0000_0000_0000_0000_0000_0000
    ensures Pow2(108) == 0x1000_0000_0000_0000_0000_0000_0000
    ensures Pow2(112) == 0x1_0000_0000_0000_0000_0000_0000_0000
    ensures Pow2(125) == 0x2000_0000_0000_0000_0000_0000_0000_0000
  {
    Powers();
    Pow2Of128();
    Pow2Divides(32, 96);
    assert Pow2(9) == 0x200 && Pow2(12) == 0x1000 && Pow2(13) == 0x2000;
    Pow2Divides(9, 105);
    Pow2Divides(12, 108);
    Pow2Divides(16, 112);
    Pow2Divides(13, 125);
  }

  lemma NetworkNear(p: Net)
    requires WellFormed(p)
    ensures Network(p) <= p.addr <= LastAddress(p)
  {
    FloorBelow(p.addr, Size(p));
  }

  /** The special ranges end before 2003:: or begin after 3ffe::. */
  lemma SpecialRangesEnd(i: nat)
    requires i < |SPECIAL_RANGES|
    ensures WellFormed(SPECIAL_RANGES[i])
    ensures LastAddress(SPECIAL_RANGES[i]) < Groups(0x2003, 0, 0) || Groups(0x3ffe, 0, 0) < Network(SPECIAL_RANGES[i])
  {
    var r := SPECIAL_RANGES[i];
    assert 16 <= r.len <= 128 && (r.addr <= Groups(0x2002, 0, 0) || r.addr == Groups(0x3fff, 0, 0));
    LargePowers();
    Pow2Divides(128 - r.len, 112);
    MulMonotone(1, Pow2(r.len - 16), Size(r));
    NetworkNear(r);
  }

  lemma IsNative(a: nat)
    requires Groups(0x2600, 0, 0) <= a < Groups(0x2601, 0, 0)
    ensures NativeIpv6Allowed(a)
  {
    LargePowers();
    assert InPrefix(a, Groups(0x2000, 0, 0), 3, 128);
    assert !InPrefix(a, Groups(0x2001, 0, 0), 23, 128);
    assert !InPrefix(a, Groups(0x2001, 0xdb8, 0), 32, 128);
    assert !InPrefix(a, Groups(0x3fff, 0, 0), 20, 128);
  }

  /** There are acceptable lists: 2600::/32 is a prefix by itself without a fault. */
  lemma SomePrefixAcceptable()
    ensures OwnFault(Net(Groups(0x2600, 0, 0), 32)).None?
    ensures Acceptable([Net(Groups(0x2600, 0, 0), 32)])
  {
    var p := Net(Groups(0x2600, 0, 0), 32);
    LargePowers();
    assert Network(p) == p.addr && LastAddress(p) < Groups(0x2601, 0, 0);
    forall i | 0 <= i < |SPECIAL_RANGES|
      ensures WellFormed(SPECIAL_RANGES[i]) && !Touches(SPECIAL_RANGES[i], p)
    {
      SpecialRangesEnd(i);
      NetworkNear(SPECIAL_RANGES[i]);
    }
    IsNative(Network(p));
    IsNative(LastAddress(p));
  }

  // ---- the order of the list

  /** The two lists have the same elements. */
  ghost predicate SameElements(ps: seq<Net>, qs: seq<Net>) {
    multiset(ps) == multiset(qs)
  }

  lemma FindIn(ps: seq<Net>, qs: seq<Net>, k: nat) returns (j: nat)
    requires SameElements(ps, qs) && k < |ps|
    ensures j < |qs| && qs[j] == ps[k]
  {
    assert ps[k] in multiset(ps);
    j :| j < |qs| && qs[j] == ps[k];
  }

  /** Whether a list is accepted does not depend on its order. */
  lemma AcceptanceUnordered(ps: seq<Net>, qs: seq<Net>)
    requires SameElements(ps, qs) && Acceptable(ps)
    ensures Acceptable(qs)
  {
    forall j | 0 <= j < |qs|
      ensures OwnFault(qs[j]).None?
    {
      var k := FindIn(qs, ps, j);
    }
    forall i, j | 0 <= i < j < |qs|
      ensures Disjoint(qs[i], qs[j])
    {
      var m := FindIn(qs, ps, i);
      var n := FindIn(qs, ps, j);
      if qs[i] == qs[j] {
        CountTwo(qs, i, j);
        NoneTwice(ps, qs[i]);
        assert false;
      }
      if m < n { assert Disjoint(ps[m], ps[n]); } else { assert Disjoint(ps[n], ps[m]); }
    }
  }

  lemma {:induction false} CountTwo(s: seq<Net>, i: nat, j: nat)
    requires i < j < |s| && s[i] == s[j]
    ensures multiset(s)[s[i]] >= 2
  {
    assert s == s[..j] + [s[j]] + s[j + 1..];
    assert s[i] in multiset(s[..j]) by { assert s[..j][i] == s[i]; }
  }

  lemma {:induction false} CountOne(s: seq<Net>, x: Net)
    requires multiset(s)[x] >= 2
    ensures exists i, j :: 0 <= i < j < |s| && s[i] == x && s[j] == x
  {
    var n := |s| - 1;
    assert s == s[..n] + [s[n]];
    if s[n] == x {
      assert x in multiset(s[..n]);
      var i :| 0 <= i < n && s[..n][i] == x;
      assert s[i] == x && s[n] == x;
    } else {
      CountOne(s[..n], x);
      var i, j :| 0 <= i < j < n && s[..n][i] == x && s[..n][j] == x;
      assert s[i] == x && s[j] == x;
    }
  }

  lemma SharesItself(p: Net)
    requires WellFormed(p)
    ensures !Disjoint(p, p)
  {
    assert Contains(p, Network(p));
  }

  /** A block overlaps itself, so that an accepted list names none twice. */
  lemma NoneTwice(ps: seq<Net>, x: Net)
    requires Acceptable(ps)
    ensures multiset(ps)[x] <= 1
  {
    if multiset(ps)[x] >= 2 {
      CountOne(ps, x);
      var m, n :| 0 <= m < n < |ps| && ps[m] == x && ps[n] == x;
      SharesItself(ps[m]);
      assert false;
    }
  }

  /** Nor does any classification. */
  lemma ClassificationUnordered(ps: seq<Net>, qs: seq<Net>, address: IpAddr)
    requires SameElements(ps, qs) && Acceptable(ps)
    ensures Usable(ps) && Usable(qs) && Classify(ps, address) == Classify(qs, address)
  {
    AcceptanceUnordered(ps, qs);
    if address.V6? {
      var a := address.v6;
      if k: nat :| k < |ps| && Contains(ps[k], a) {
        var j := FindIn(ps, qs, k);
        ClassifyConfigured(ps, k, a);
        ClassifyConfigured(qs, j, a);
      } else {
        forall j | 0 <= j < |qs|
          ensures !Contains(qs[j], a)
        {
          var k := FindIn(qs, ps, j);
        }
        ClassifyUnconfigured(ps, a);
        ClassifyUnconfigured(qs, a);
      }
    }
  }
}
