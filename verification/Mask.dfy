/** Network masks of lib/ipfw/ipfw2.c: n2mask builds one in place, contigmask recognises one. */
module Mask {

  /** `1 << (7 - k)`: bit k of an octet, counted from the most significant one. */
  function BitValue(k: nat): bv8
    requires k < 8
  {
    match k
    case 0 => 0x80
    case 1 => 0x40
    case 2 => 0x20
    case 3 => 0x10
    case 4 => 0x08
    case 5 => 0x04
    case 6 => 0x02
    case 7 => 0x01
  }

  predicate Bit(p: seq<bv8>, i: nat)
    requires i < 8 * |p|
  {
    p[i / 8] & BitValue(i % 8) != 0
  }

  /** Octet j holds bits 8j to 8j+7, the most significant one first. */
  lemma OctetIs(p: seq<bv8>, j: nat)
    requires j < |p|
    ensures p[j] ==
              (if Bit(p, 8 * j) then 0x80 else 0) + (if Bit(p, 8 * j + 1) then 0x40 else 0)
              + (if Bit(p, 8 * j + 2) then 0x20 else 0) + (if Bit(p, 8 * j + 3) then 0x10 else 0)
              + (if Bit(p, 8 * j + 4) then 0x08 else 0) + (if Bit(p, 8 * j + 5) then 0x04 else 0)
              + (if Bit(p, 8 * j + 6) then 0x02 else 0) + (if Bit(p, 8 * j + 7) then 0x01 else 0)
  {
    hide Bit, BitValue;
    BitIs(p, j, 0);
    BitIs(p, j, 1);
    BitIs(p, j, 2);
    BitIs(p, j, 3);
    BitIs(p, j, 4);
    BitIs(p, j, 5);
    BitIs(p, j, 6);
    BitIs(p, j, 7);
    Octet(p[j]);
  }

  lemma Octet(b: bv8)
    ensures b ==
              (if b & 0x80 != 0 then 0x80 else 0) + (if b & 0x40 != 0 then 0x40 else 0)
              + (if b & 0x20 != 0 then 0x20 else 0) + (if b & 0x10 != 0 then 0x10 else 0)
              + (if b & 0x08 != 0 then 0x08 else 0) + (if b & 0x04 != 0 then 0x04 else 0)
              + (if b & 0x02 != 0 then 0x02 else 0) + (if b & 0x01 != 0 then 0x01 else 0)
  {
  }

  lemma BitIs(p: seq<bv8>, j: nat, k: nat)
    requires j < |p| && k < 8
    ensures Bit(p, 8 * j + k) <==> p[j] & [0x80 as bv8, 0x40, 0x20, 0x10, 0x08, 0x04, 0x02, 0x01][k] != 0
  {
    assert (8 * j + k) / 8 == j && (8 * j + k) % 8 == k;
  }

  /** The first `len` bits are k ones followed by zeros. */
  ghost predicate IsMask(p: seq<bv8>, len: nat, k: int)
    requires len <= 8 * |p|
  {
    forall i | 0 <= i < len :: Bit(p, i) <==> i < k
  }

  /** The octet with n leading ones (minimask). */
  function MiniMask(n: nat): bv8
    requires n <= 8
  {
    [0x00, 0x80, 0xc0, 0xe0, 0xf0, 0xf8, 0xfc, 0xfe, 0xff][n]
  }

  lemma MiniMaskBits(n: nat, k: nat)
    requires n <= 8 && k < 8
    ensures MiniMask(n) & BitValue(k) != 0 <==> k < n
  {
  }

  /** n2mask; `mask` is an in6_addr.  More than 128 bits would run over its end. */
  method N2Mask(mask: array<bv8>, bits: int)
    requires mask.Length == 16 && bits <= 128
    modifies mask
    ensures IsMask(mask[..], 128, bits)
  {
    for j := 0 to mask.Length
      invariant forall i | 0 <= i < j :: mask[i] == 0
    {
      mask[j] := 0;
    }
    var p, n := 0, bits;
    while n > 0
      invariant 0 <= p <= 16 && (n == bits - 8 * p || (n <= 0 && bits <= 8 * p))
      invariant n > 0 ==> p < 16
      invariant forall i | 0 <= i < p :: mask[i] == MiniMask(Ones(bits, i))
      invariant forall i | p <= i < 16 :: mask[i] == 0
      invariant n <= 0 ==> bits <= 8 * p
    {
      if n >= 8 {
        mask[p] := 0xff;
      } else {
        mask[p] := MiniMask(n);
      }
      p, n := p + 1, n - 8;
    }
    forall i | 0 <= i < 128
      ensures Bit(mask[..], i) <==> i < bits
    {
      MiniMaskBits(Ones(bits, i / 8), i % 8);
      assert mask[i / 8] == MiniMask(Ones(bits, i / 8));
    }
  }

  /** How many of the leading `bits` ones fall into octet i. */
  function Ones(bits: int, i: nat): (n: nat)
    ensures n <= 8
  {
    if bits <= 8 * i then 0 else if bits >= 8 * i + 8 then 8 else bits - 8 * i
  }

  /** contigmask: the number of leading ones, or -1 if another one follows the first zero. */
  method ContigMask(p: array<bv8>, len: nat) returns (r: int)
    requires len <= 8 * p.Length
    ensures -1 <= r <= len
    ensures r >= 0 ==> IsMask(p[..], len, r)
    ensures r == -1 ==> forall k: int :: !IsMask(p[..], len, k)
  {
    hide Bit;
    ghost var bits := p[..];
    var i := 0;
    while i < len
      invariant 0 <= i <= len
      invariant forall j | 0 <= j < i :: Bit(bits, j)
    {
      var on := TestBit(p, i);
      if !on {
        break;
      }
      i := i + 1;
    }
    assert i < len ==> !Bit(bits, i);
    var n := i + 1;
    while n < len
      invariant i < n && (n <= len || n == i + 1)
      invariant forall j | i < j < n && j < len :: !Bit(bits, j)
    {
      var on := TestBit(p, n);
      if on {
        NotAMask(bits, len, i, n);
        return -1;
      }
      n := n + 1;
    }
    return i;
  }

  method TestBit(p: array<bv8>, i: nat) returns (on: bool)
    requires i < 8 * p.Length
    ensures on == Bit(p[..], i)
  {
    on := p[i / 8] & BitValue(i % 8) != 0;
  }

  lemma NotAMask(p: seq<bv8>, len: nat, i: nat, n: nat)
    requires len <= 8 * |p| && i < n < len && !Bit(p, i) && Bit(p, n)
    ensures forall k: int :: !IsMask(p, len, k)
  {
    hide Bit;
  }

  lemma MaskAt(p: seq<bv8>, k: int, i: nat)
    requires i < 8 * |p| && IsMask(p, 8 * |p|, k)
    ensures Bit(p, i) <==> i < k
  {
  }

  // ---------------------------------------------------------------- the two agree

  lemma OctetsEqual(a: bv8, b: bv8)
    requires forall k | 0 <= k < 8 :: (a & BitValue(k) != 0) == (b & BitValue(k) != 0)
    ensures a == b
  {
    assert BitValue(0) == 0x80 && BitValue(1) == 0x40 && BitValue(2) == 0x20 && BitValue(3) == 0x10;
    assert BitValue(4) == 0x08 && BitValue(5) == 0x04 && BitValue(6) == 0x02 && BitValue(7) == 0x01;
    assert (a & 0x80 != 0) == (b & 0x80 != 0) && (a & 0x40 != 0) == (b & 0x40 != 0);
    assert (a & 0x20 != 0) == (b & 0x20 != 0) && (a & 0x10 != 0) == (b & 0x10 != 0);
    assert (a & 0x08 != 0) == (b & 0x08 != 0) && (a & 0x04 != 0) == (b & 0x04 != 0);
    assert (a & 0x02 != 0) == (b & 0x02 != 0) && (a & 0x01 != 0) == (b & 0x01 != 0);
  }

  /** A mask is determined by its length: two that agree on k are the same octets. */
  lemma MaskUnique(p: seq<bv8>, q: seq<bv8>, k: int)
    requires |p| == |q| && IsMask(p, 8 * |p|, k) && IsMask(q, 8 * |q|, k)
    ensures p == q
  {
    forall j | 0 <= j < |p|
      ensures p[j] == q[j]
    {
      forall b | 0 <= b < 8
        ensures (p[j] & BitValue(b) != 0) == (q[j] & BitValue(b) != 0)
      {
        assert (8 * j + b) / 8 == j && (8 * j + b) % 8 == b;
        assert Bit(p, 8 * j + b) == Bit(q, 8 * j + b);
      }
      OctetsEqual(p[j], q[j]);
    }
  }

  /** And its length is determined by it. */
  lemma LengthUnique(p: seq<bv8>, j: int, k: int)
    requires 0 <= j <= 8 * |p| && 0 <= k <= 8 * |p| && IsMask(p, 8 * |p|, j) && IsMask(p, 8 * |p|, k)
    ensures j == k
  {
    hide Bit;
    if j < 8 * |p| {
      MaskAt(p, j, j);
      MaskAt(p, k, j);
    }
    if k < 8 * |p| {
      MaskAt(p, j, k);
      MaskAt(p, k, k);
    }
  }

  /** Whatever contigmask answers for an address m: it is k exactly when m is what n2mask builds for k. */
  lemma RecognisesExactly(m: seq<bv8>, built: seq<bv8>, k: nat, r: int)
    requires |m| == 16 && |built| == 16 && k <= 128
    requires IsMask(built, 128, k)
    requires -1 <= r <= 128 && if r >= 0 then IsMask(m, 128, r) else forall j: int :: !IsMask(m, 128, j)
    ensures r == k <==> m == built
  {
    if r == k {
      MaskUnique(m, built, k);
    } else if m == built && r >= 0 {
      LengthUnique(m, k, r);
    }
  }
}
