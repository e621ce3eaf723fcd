/** Numbers in network byte order. */
module Bytes {

  const TWO32 := 0x1_0000_0000
  const TWO64 := 0x1_0000_0000_0000_0000

  type Byte = x: int | 0 <= x < 256
  type U16 = x: int | 0 <= x < 0x1_0000
  type U32 = x: int | 0 <= x < TWO32
  type U64 = x: int | 0 <= x < TWO64

  function Pow256(n: nat): (p: nat)
    ensures p > 0
  {
    if n == 0 then 1 else 256 * Pow256(n - 1)
  }

  lemma PowValues()
    ensures Pow256(2) == 0x1_0000 && Pow256(4) == TWO32 && Pow256(8) == TWO64
  {
    assert Pow256(2) == 256 * (256 * Pow256(0));
    assert Pow256(4) == 256 * (256 * Pow256(2));
    assert Pow256(6) == 256 * (256 * Pow256(4));
    assert Pow256(8) == 256 * (256 * Pow256(6));
  }

  /** The low `n` octets of x, most significant first. */
  function Be(n: nat, x: nat): (s: seq<Byte>)
    ensures |s| == n
  {
    if n == 0 then [] else Be(n - 1, x / 256) + [x % 256]
  }

  function UnBe(s: seq<Byte>): nat {
    if s == [] then 0 else UnBe(s[..|s| - 1]) * 256 + s[|s| - 1]
  }

  /** Reading back gives the number modulo the width: all of it when it fits. */
  lemma {:induction false} UnBeBe(n: nat, x: nat)
    ensures UnBe(Be(n, x)) == x % Pow256(n)
    ensures x < Pow256(n) ==> UnBe(Be(n, x)) == x
  {
    if n > 0 {
      UnBeBe(n - 1, x / 256);
      var s := Be(n, x);
      assert s[..n - 1] == Be(n - 1, x / 256);
      DivMod(x, Pow256(n - 1));
    }
  }

  lemma DivMod(x: nat, p: nat)
    requires p > 0
    ensures x % (256 * p) == (x / 256 % p) * 256 + x % 256
    ensures x < 256 * p ==> x % (256 * p) == x
  {
    var q, r := x / 256, x % 256;
    var a, b := q / p, q % p;
    assert x == 256 * q + r && q == p * a + b;
    assert x == (256 * p) * a + (256 * b + r) by {
      assert 256 * (p * a) == (256 * p) * a;
    }
    assert 256 * b + r < 256 * p;
    Remainder(x, 256 * p, a, 256 * b + r);
    if x < 256 * p {
      Remainder(x, 256 * p, 0, x);
    }
  }

  lemma Remainder(x: nat, m: nat, a: nat, r: nat)
    requires m > 0 && x == m * a + r && r < m
    ensures x % m == r
  {
    var d := x / m;
    assert x == m * d + x % m;
    MulStep(m, d, a);
    MulStep(m, a, d);
  }

  lemma {:induction false} MulStep(m: nat, d: nat, a: nat)
    ensures d > a ==> m * d >= m * a + m
  {
    if d > a + 1 {
      MulStep(m, d - 1, a);
      assert m * d == m * (d - 1) + m;
    }
  }

  lemma {:induction false} BeUnBe(s: seq<Byte>)
    ensures UnBe(s) < Pow256(|s|)
    ensures Be(|s|, UnBe(s)) == s
  {
    if s != [] {
      BeUnBe(s[..|s| - 1]);
      assert s == s[..|s| - 1] + [s[|s| - 1]];
    }
  }

  /** The two widths met most, written out. */
  function Num2(a: int, b: int): int {
    0x100 * a + b
  }

  function Num4(a: int, b: int, c: int, d: int): int {
    0x100_0000 * a + 0x1_0000 * b + 0x100 * c + d
  }

  lemma UnBe1(s: seq<Byte>)
    requires |s| == 1
    ensures UnBe(s) == s[0]
  {
    assert s[..0] == [];
  }

  lemma UnBe2(s: seq<Byte>)
    requires |s| == 2
    ensures UnBe(s) == Num2(s[0], s[1])
  {
    UnBe1(s[..1]);
  }

  lemma UnBe4(s: seq<Byte>)
    requires |s| == 4
    ensures UnBe(s) == Num4(s[0], s[1], s[2], s[3])
  {
    UnBe2(s[..2]);
    assert s[..3][..2] == s[..2];
    assert UnBe(s[..3]) == UnBe(s[..2]) * 256 + s[2];
  }

  /** The octets of a number determine it, and it them. */
  lemma BeIs(s: seq<Byte>, x: nat)
    requires x < Pow256(|s|)
    ensures s == Be(|s|, x) <==> UnBe(s) == x
  {
    UnBeBe(|s|, x);
    BeUnBe(s);
  }
}
