/**
 * IPv4 addresses and netmasks as 32 bits, most significant first, and the
 * prefix masks of CIDR (section 3.1 of RFC 4632): a prefix length `p`
 * stands for the mask of `p` ones followed by zeros.
 */
module NetMask {
  import opened Wrappers
  import Seqs

  /** The `w` low bits of `n`, most significant first. */
  function Bits(n: nat, w: nat): (r: seq<bool>)
    ensures |r| == w
  {
    if w == 0 then [] else Bits(n / 2, w - 1) + [n % 2 == 1]
  }

  /** The number a sequence of bits, most significant first, stands for. */
  function Value(b: seq<bool>): nat
  {
    if |b| == 0 then 0 else 2 * Value(b[..|b| - 1]) + (if b[|b| - 1] then 1 else 0)
  }

  /** `Bits` writes a number below 2^w in binary: reading the bits back gives the number. */
  lemma {:induction false} BitsValue(n: nat, w: nat)
    requires n < Seqs.Pow2(w)
    ensures Value(Bits(n, w)) == n
  {
    if w > 0 {
      BitsValue(n / 2, w - 1);
      var b := Bits(n, w);
      assert b[..|b| - 1] == Bits(n / 2, w - 1);
    }
  }

  /** The netmask of prefix length `p`. */
  function MaskBits(p: nat): (r: seq<bool>)
    requires p <= 32
    ensures |r| == 32
  {
    seq(32, i => i < p)
  }

  /** Bitwise complement: `~m`, as `ipaddress` takes a host mask. */
  function Not(m: seq<bool>): (r: seq<bool>)
    ensures |r| == |m|
  {
    seq(|m|, i requires 0 <= i < |m| => !m[i])
  }

  /** Bitwise and: `x & m`. */
  function And(x: seq<bool>, m: seq<bool>): (r: seq<bool>)
    requires |x| == |m|
    ensures |r| == |x|
  {
    seq(|x|, i requires 0 <= i < |x| => x[i] && m[i])
  }

  /** `x & mask == y & mask` for the mask of prefix length `p`. */
  predicate SameNetwork(x: seq<bool>, y: seq<bool>, p: nat)
    requires |x| == 32 && |y| == 32 && p <= 32
  {
    And(x, MaskBits(p)) == And(y, MaskBits(p))
  }

  /** Two addresses share a network of prefix length `p` iff their first `p` bits agree. */
  lemma SameNetworkLeadingBits(x: seq<bool>, y: seq<bool>, p: nat)
    requires |x| == 32 && |y| == 32 && p <= 32
    ensures SameNetwork(x, y, p) <==> x[..p] == y[..p]
  {
    var mx := And(x, MaskBits(p));
    var my := And(y, MaskBits(p));
    if SameNetwork(x, y, p) {
      forall i | 0 <= i < p
        ensures x[i] == y[i]
      {
        assert mx[i] == my[i];
      }
    }
    if x[..p] == y[..p] {
      forall i | 0 <= i < 32
        ensures mx[i] == my[i]
      {
        if i < p {
          assert x[i] == x[..p][i];
        }
      }
    }
  }

  /** Every pair of addresses shares the /0 network; only equal ones share a /32 network. */
  lemma SameNetworkExtremes(x: seq<bool>, y: seq<bool>)
    requires |x| == 32 && |y| == 32
    ensures SameNetwork(x, y, 0)
    ensures SameNetwork(x, y, 32) <==> x == y
  {
    SameNetworkLeadingBits(x, y, 0);
    SameNetworkLeadingBits(x, y, 32);
    assert x[..32] == x && y[..32] == y;
  }

  /** Addresses in the same network share every shorter-prefix network containing it. */
  lemma SameNetworkNested(x: seq<bool>, y: seq<bool>, p: nat, q: nat)
    requires |x| == 32 && |y| == 32 && p <= q <= 32
    requires SameNetwork(x, y, q)
    ensures SameNetwork(x, y, p)
  {
    SameNetworkLeadingBits(x, y, q);
    SameNetworkLeadingBits(x, y, p);
    assert x[..p] == x[..q][..p] && y[..p] == y[..q][..p];
  }

  /** Different prefix lengths have different masks. */
  lemma MaskInjective(p: nat, q: nat)
    requires p <= 32 && q <= 32
    ensures MaskBits(p) == MaskBits(q) <==> p == q
  {
    if p != q {
      var k := if p < q then p else q;
      assert MaskBits(p)[k] != MaskBits(q)[k];
    }
  }

  /** The prefix length whose mask is `m`, looking at lengths from `p` up. */
  function PrefixOfMaskFrom(m: seq<bool>, p: nat): (r: Option<nat>)
    requires p <= 33
    ensures r.Some? ==> p <= r.value <= 32 && MaskBits(r.value) == m
    ensures r.None? ==> forall q :: p <= q <= 32 ==> MaskBits(q) != m
    decreases 33 - p
  {
    if p > 32 then None
    else if MaskBits(p) == m then Some(p)
    else PrefixOfMaskFrom(m, p + 1)
  }

  /**
   * The prefix length of a dotted mask: read as a netmask (ones then
   * zeros) first, then as a host mask (zeros then ones).
   */
  function MaskPrefix(m: seq<bool>): (r: Option<nat>)
    ensures r.Some? ==> r.value <= 32 && (MaskBits(r.value) == m || MaskBits(r.value) == Not(m))
    ensures r.None? <==> forall q :: 0 <= q <= 32 ==> MaskBits(q) != m && MaskBits(q) != Not(m)
    ensures (exists q :: 0 <= q <= 32 && MaskBits(q) == m) ==> r.Some? && MaskBits(r.value) == m
  {
    var asNetmask := PrefixOfMaskFrom(m, 0);
    if asNetmask.Some? then asNetmask else PrefixOfMaskFrom(Not(m), 0)
  }

  /** A netmask reads back as its own prefix length. */
  lemma NetmaskPrefixRoundTrip(p: nat)
    requires p <= 32
    ensures MaskPrefix(MaskBits(p)) == Some(p)
  {
    MaskInjective(MaskPrefix(MaskBits(p)).value, p);
  }

  /** A host mask (zeros then ones) reads back as the prefix length of its complement. */
  lemma HostmaskPrefixRoundTrip(p: nat)
    requires 0 < p < 32
    ensures MaskPrefix(Not(MaskBits(p))) == Some(p)
  {
    var h := Not(MaskBits(p));
    assert Not(h) == MaskBits(p);
    forall q | 0 <= q <= 32
      ensures MaskBits(q) != h
    {
      if q == 0 {
        assert MaskBits(q)[31] != h[31];
      } else {
        assert MaskBits(q)[0] != h[0];
      }
    }
    MaskInjective(MaskPrefix(h).value, p);
  }

  /** `num_addresses` of a network of prefix length `p`. */
  function NumAddresses(p: nat): nat
    requires p <= 32
  {
    Seqs.Pow2(32 - p)
  }

  /** A longer prefix covers fewer addresses: half as many per extra bit. */
  lemma {:induction false} NumAddressesShrinks(p: nat, q: nat)
    requires p <= q <= 32
    ensures NumAddresses(q) <= NumAddresses(p)
    ensures q == p + 1 ==> NumAddresses(p) == 2 * NumAddresses(q)
    decreases q - p
  {
    if p < q {
      NumAddressesShrinks(p + 1, q);
    }
  }
}
