/** The embedding of IPv4 addresses in IPv6 prefixes of section 2.2 of RFC 6052, octet by octet, and
    its inverse (`extract_rfc6052` in `src/feeds/address_policy.rs`). */
module Rfc6052 {
  import opened AddressPolicy
  import opened Octets

  /** The layout of section 2.2: the prefix, the four octets of the IPv4 address around the reserved
      octet u in position 8, which is zero, and a suffix; a prefix of 96 bits covers position 8 itself
      and leaves no suffix. */
  function Embed(prefix: seq<Octet>, v4: seq<Octet>, suffix: seq<Octet>): seq<Octet>
    requires |prefix| in {4, 5, 6, 7, 8, 12} && |v4| == 4
    requires |suffix| == if |prefix| == 12 then 0 else 11 - |prefix|
  {
    if |prefix| == 12 then prefix + v4
    else (prefix + v4)[..8] + [0] + (prefix + v4)[8..] + suffix
  }

  // ---- numbers and octets

  lemma {:induction false} ValueAppend(a: seq<Octet>, b: seq<Octet>)
    ensures Value(a + b) == Times(Value(a), Pow2(8 * |b|)) + Value(b)
  {
    if b == [] {
      assert a + b == a;
    } else {
      var init := b[..|b| - 1];
      ValueAppend(a, init);
      assert (a + b)[..|a + b| - 1] == a + init;
      Pow2Octet(|init|);
      MulAssociates(Value(a), Pow2(8 * |init|), 256);
    }
  }

  lemma Pow2Octet(k: nat)
    ensures Pow2(8 * (k + 1)) == Times(Pow2(8 * k), 256)
  {
    Pow2Divides(8 * k, 8 * k + 8);
    assert Pow2(8) == 256;
  }

  lemma {:induction false} ValueBound(s: seq<Octet>)
    ensures Value(s) < Pow2(8 * |s|)
  {
    if s != [] {
      ValueBound(s[..|s| - 1]);
      Pow2Octet(|s| - 1);
    }
  }

  /** Shifting to the right drops octets, masking keeps the last ones. */
  lemma ValueSplit(s: seq<Octet>, k: nat)
    requires k <= |s|
    ensures Value(s) / Pow2(8 * k) == Value(s[..|s| - k])
    ensures Value(s) % Pow2(8 * k) == Value(s[|s| - k..])
  {
    var high, low := s[..|s| - k], s[|s| - k..];
    assert s == high + low;
    ValueAppend(high, low);
    ValueBound(low);
    QuotientUnique(Value(s), Pow2(8 * k), Value(high));
    RemainderIs(Value(s), Pow2(8 * k));
  }

  lemma RemainderIs(a: nat, unit: nat)
    requires unit >= 1
    ensures a == Times(a / unit, unit) + a % unit
  {
  }

  /** A shift followed by a mask selects octets. */
  lemma ValueSlice(s: seq<Octet>, i: nat, j: nat)
    requires i <= j <= |s|
    ensures Value(s) / Pow2(8 * (|s| - j)) % Pow2(8 * (j - i)) == Value(s[i..j])
  {
    ValueSplit(s, |s| - j);
    ValueSplit(s[..j], j - i);
    assert s[..j][i..] == s[i..j];
  }

  lemma ValueIsAddress(s: seq<Octet>)
    requires |s| == 16
    ensures Value(s) < 0x1_0000_0000_0000_0000_0000_0000_0000_0000
  {
    ValueBound(s);
    Pow2Of128();
  }

  // ---- extraction

  /** The octets of the embedded address, for each prefix length. */
  function V4Octets(s: seq<Octet>, length: nat): seq<Octet>
    requires |s| == 16 && length in SUPPORTED_PREFIX_LENGTHS
  {
    if length == 32 then s[4..8]
    else if length == 40 then s[5..8] + s[9..10]
    else if length == 48 then s[6..8] + s[9..11]
    else if length == 56 then s[7..8] + s[9..12]
    else if length == 64 then s[9..13]
    else s[12..16]
  }

  lemma ExtractWhole(s: seq<Octet>, length: nat, i: nat)
    requires |s| == 16 && (length, i) in {(32, 4), (64, 9)} && Value(s) < 0x1_0000_0000_0000_0000_0000_0000_0000_0000
    ensures ExtractRfc6052(Value(s), length) == Value(s[i..i + 4])
  {
    Powers();
    ValueSlice(s, i, i + 4);
  }

  lemma ExtractLast(s: seq<Octet>)
    requires |s| == 16 && Value(s) < 0x1_0000_0000_0000_0000_0000_0000_0000_0000
    ensures ExtractRfc6052(Value(s), 96) == Value(s[12..16])
  {
    Powers();
    ValueSplit(s, 4);
    assert s[|s| - 4..] == s[12..16];
  }

  /** Both parts of an address that the reserved octet divides. */
  lemma ExtractSplit(s: seq<Octet>, i: nat, j: nat)
    requires |s| == 16 && i <= 8 && 9 <= j <= 16
    ensures Value(s[i..8] + s[9..j]) == Times(Value(s) / Pow2(64) % Pow2(8 * (8 - i)), Pow2(8 * (j - 9))) +
      Value(s) / Pow2(8 * (16 - j)) % Pow2(8 * (j - 9))
  {
    ValueSlice(s, i, 8);
    ValueSlice(s, 9, j);
    ValueAppend(s[i..8], s[9..j]);
  }

  lemma ExtractDivided(s: seq<Octet>, length: nat, i: nat, j: nat)
    requires |s| == 16 && (length, i, j) in {(40, 5, 10), (48, 6, 11), (56, 7, 12)}
    requires Value(s) < 0x1_0000_0000_0000_0000_0000_0000_0000_0000
    ensures ExtractRfc6052(Value(s), length) == Value(s[i..8] + s[9..j])
  {
    Powers();
    ExtractSplit(s, i, j);
  }

  /** The shifts and masks select the octets of the layout. */
  lemma ExtractSelects(s: seq<Octet>, length: nat)
    requires |s| == 16 && length in SUPPORTED_PREFIX_LENGTHS
    ensures Value(s) < 0x1_0000_0000_0000_0000_0000_0000_0000_0000
    ensures ExtractRfc6052(Value(s), length) == Value(V4Octets(s, length))
  {
    ValueIsAddress(s);
    if length == 32 { ExtractWhole(s, 32, 4); }
    else if length == 40 { ExtractDivided(s, 40, 5, 10); }
    else if length == 48 { ExtractDivided(s, 48, 6, 11); }
    else if length == 56 { ExtractDivided(s, 56, 7, 12); }
    else if length == 64 { ExtractWhole(s, 64, 9); }
    else { ExtractLast(s); }
  }

  lemma ReservedOctet(s: seq<Octet>)
    requires |s| == 16
    ensures UOctet(Value(s)) == s[8]
  {
    Powers();
    ValueSlice(s, 8, 9);
    assert s[8..9] == [s[8]];
    assert Value([s[8]]) == s[8];
  }

  lemma Layout(prefix: seq<Octet>, v4: seq<Octet>, suffix: seq<Octet>)
    requires |prefix| in {4, 5, 6, 7, 8, 12} && |v4| == 4
    requires |suffix| == if |prefix| == 12 then 0 else 11 - |prefix|
    ensures var s := Embed(prefix, v4, suffix);
      && |s| == 16
      && s[..|prefix|] == prefix
      && s[8] == (if |prefix| == 12 then prefix[8] else 0)
      && V4Octets(s, 8 * |prefix|) == v4
  {
    var s := Embed(prefix, v4, suffix);
    var k, body := |prefix|, prefix + v4;
    if k == 12 {
      assert s[12..16] == v4;
    } else {
      assert s[..8] == body[..8] && s[9..k + 5] == body[8..];
      assert s[..k] == body[..k] == prefix;
      assert s[k..8] == body[k..8];
      assert body[k..8] + body[8..] == body[k..] == v4;
    }
  }

  /** Extraction undoes the embedding, for every prefix length, prefix, address and suffix; and the
      reserved octet of an embedded address is zero. */
  lemma ExtractInvertsEmbed(prefix: seq<Octet>, v4: seq<Octet>, suffix: seq<Octet>)
    requires |prefix| in {4, 5, 6, 7, 8, 12} && |v4| == 4
    requires |suffix| == if |prefix| == 12 then 0 else 11 - |prefix|
    ensures Value(Embed(prefix, v4, suffix)) < 0x1_0000_0000_0000_0000_0000_0000_0000_0000
    ensures ExtractRfc6052(Value(Embed(prefix, v4, suffix)), 8 * |prefix|) == Value(v4)
    ensures UOctet(Value(Embed(prefix, v4, suffix))) == if |prefix| == 12 then prefix[8] else 0
  {
    Layout(prefix, v4, suffix);
    ExtractSelects(Embed(prefix, v4, suffix), 8 * |prefix|);
    ReservedOctet(Embed(prefix, v4, suffix));
  }

  function SuffixOf(s: seq<Octet>, length: nat): seq<Octet>
    requires |s| == 16 && length in SUPPORTED_PREFIX_LENGTHS
  {
    if length == 96 then [] else s[16 - (11 - length / 8)..]
  }

  /** The octets of an address around the reserved one. */
  lemma AroundReserved(s: seq<Octet>, k: nat, v4: seq<Octet>)
    requires |s| == 16 && 4 <= k <= 8 && s[8] == 0 && v4 == s[k..8] + s[9..k + 5]
    ensures s == Embed(s[..k], v4, s[k + 5..])
  {
    assert s[..k] + v4 == s[..8] + s[9..k + 5];
    assert (s[..8] + s[9..k + 5])[..8] == s[..8];
    assert (s[..8] + s[9..k + 5])[8..] == s[9..k + 5];
    assert s == s[..8] + [0] + s[9..k + 5] + s[k + 5..];
  }

  lemma SplitOctets(s: seq<Octet>, length: nat)
    requires |s| == 16 && length in SUPPORTED_PREFIX_LENGTHS && length <= 64
    ensures V4Octets(s, length) == s[length / 8..8] + s[9..length / 8 + 5]
  {
  }

  lemma LayoutOf(s: seq<Octet>, length: nat)
    requires |s| == 16 && length in SUPPORTED_PREFIX_LENGTHS && (length <= 64 ==> s[8] == 0)
    ensures s == Embed(s[..length / 8], V4Octets(s, length), SuffixOf(s, length))
  {
    if length == 96 {
      assert s[..12] + s[12..16] == s;
    } else {
      SplitOctets(s, length);
      AroundReserved(s, length / 8, V4Octets(s, length));
    }
  }

  /** Every address of a prefix whose reserved octet is zero is an embedding of the address extracted. */
  lemma EveryAddressEmbeds(s: seq<Octet>, length: nat)
    requires |s| == 16 && length in SUPPORTED_PREFIX_LENGTHS && (length <= 64 ==> UOctet(Value(s)) == 0)
    ensures s == Embed(s[..length / 8], V4Octets(s, length), SuffixOf(s, length))
    ensures Value(s) < 0x1_0000_0000_0000_0000_0000_0000_0000_0000
    ensures ExtractRfc6052(Value(s), length) == Value(V4Octets(s, length))
  {
    ReservedOctet(s);
    LayoutOf(s, length);
    ExtractSelects(s, length);
  }

  /** Sixteen octets stand for every IPv6 address. */
  lemma OctetsOf(a: Ipv6)
    ensures Value(BigEndian(a, 16)) == a
  {
    Pow2Of128();
    PowersAgree(16);
    ValueOfBigEndian(a, 16);
  }

  lemma {:induction false} PowersAgree(n: nat)
    ensures Pow256(n) == Pow2(8 * n)
  {
    if n > 0 {
      PowersAgree(n - 1);
      Pow2Octet(n - 1);
    }
  }

  // ---- classification

  /** The block of a prefix holds exactly the addresses that begin with its octets. */
  lemma BeginsWithPrefix(s: seq<Octet>, p: Net, prefix: seq<Octet>)
    requires |s| == 16 && |prefix| <= 16 && p.len == 8 * |prefix| && p.addr / Size(p) == Value(prefix)
    ensures Contains(p, Value(s)) <==> Value(s[..|prefix|]) == Value(prefix)
  {
    ValueSplit(s, 16 - |prefix|);
    PrefixIsBlock(Value(s), p);
  }

  /** An embedded address lies in the block of its prefix, where it is judged by its IPv4 address. */
  lemma EmbeddedInBlock(p: Net, prefix: seq<Octet>, v4: seq<Octet>, suffix: seq<Octet>)
    requires |v4| == 4 && |prefix| in {4, 5, 6, 7, 8, 12}
    requires |suffix| == if |prefix| == 12 then 0 else 11 - |prefix|
    requires p.len == 8 * |prefix| && p.addr / Size(p) == Value(prefix)
    ensures Value(v4) < 0x1_0000_0000
    ensures Value(Embed(prefix, v4, suffix)) < 0x1_0000_0000_0000_0000_0000_0000_0000_0000
    ensures Contains(p, Value(Embed(prefix, v4, suffix)))
    ensures Nat64Decision(p, Value(Embed(prefix, v4, suffix))) == ClassifyEmbeddedIpv4(Value(v4))
  {
    var s := Embed(prefix, v4, suffix);
    ExtractInvertsEmbed(prefix, v4, suffix);
    assert s[..|prefix|] == prefix;
    BeginsWithPrefix(s, p, prefix);
  }

  /** Under an accepted list, an address embedded in a configured prefix gets exactly the decision of the
      embedded IPv4 address, whatever its suffix. */
  lemma EmbeddedDecision(prefixes: seq<Net>, k: nat, prefix: seq<Octet>, v4: seq<Octet>, suffix: seq<Octet>)
    requires Acceptable(prefixes) && k < |prefixes| && |v4| == 4 && |prefix| in {4, 5, 6, 7, 8, 12}
    requires |suffix| == if |prefix| == 12 then 0 else 11 - |prefix|
    requires prefixes[k].len == 8 * |prefix| && prefixes[k].addr / Size(prefixes[k]) == Value(prefix)
    ensures Usable(prefixes) && Value(v4) < 0x1_0000_0000
    ensures Value(Embed(prefix, v4, suffix)) < 0x1_0000_0000_0000_0000_0000_0000_0000_0000
    ensures Classify(prefixes, V6(Value(Embed(prefix, v4, suffix)))) == ClassifyEmbeddedIpv4(Value(v4))
  {
    AcceptableIsUsable(prefixes);
    EmbeddedInBlock(prefixes[k], prefix, v4, suffix);
    ClassifyConfigured(prefixes, k, Value(Embed(prefix, v4, suffix)));
  }
}
