/** Bytes as small integers, exclusive-or bit by bit, and the exclusive-or of a byte string. */
module Bytes {
  import Numerals

  type byte = b: int | 0 <= b < 256

  /** Exclusive-or of two naturals, lowest bit first. */
  function XorBits(a: nat, b: nat): nat
    decreases a + b
  {
    if a == 0 then b
    else if b == 0 then a
    else (a + b) % 2 + 2 * XorBits(a / 2, b / 2)
  }

  function Pow2(k: nat): nat {
    if k == 0 then 1 else 2 * Pow2(k - 1)
  }

  lemma {:induction false} XorBitsBound(a: nat, b: nat, k: nat)
    requires a < Pow2(k) && b < Pow2(k)
    ensures XorBits(a, b) < Pow2(k)
  {
    if a != 0 && b != 0 && k != 0 {
      XorBitsBound(a / 2, b / 2, k - 1);
    }
  }

  lemma {:induction false} XorBitsUnfold(a: nat, b: nat)
    ensures XorBits(a, b) % 2 == (a + b) % 2 && XorBits(a, b) / 2 == XorBits(a / 2, b / 2)
  {
  }

  lemma SameHalves(x: nat, y: nat)
    requires x % 2 == y % 2 && x / 2 == y / 2
    ensures x == y
  {
  }

  lemma Parity(a: nat, b: nat, c: nat, ab: nat, bc: nat)
    requires ab % 2 == (a + b) % 2 && bc % 2 == (b + c) % 2
    ensures (ab + c) % 2 == (a + bc) % 2
  {
  }

  lemma {:induction false} XorBitsAssociative(a: nat, b: nat, c: nat)
    ensures XorBits(XorBits(a, b), c) == XorBits(a, XorBits(b, c))
    decreases a + b + c
  {
    if a != 0 && b != 0 && c != 0 {
      var ab, bc := XorBits(a, b), XorBits(b, c);
      var l, r := XorBits(ab, c), XorBits(a, bc);
      assert l % 2 == r % 2 by {
        XorBitsUnfold(a, b);
        XorBitsUnfold(b, c);
        XorBitsUnfold(ab, c);
        XorBitsUnfold(a, bc);
        Parity(a, b, c, ab, bc);
      }
      assert l / 2 == r / 2 by {
        XorBitsUnfold(a, b);
        XorBitsUnfold(b, c);
        XorBitsUnfold(ab, c);
        XorBitsUnfold(a, bc);
        XorBitsAssociative(a / 2, b / 2, c / 2);
      }
      SameHalves(l, r);
    }
  }

  lemma {:induction false} XorBitsInverse(a: nat, b: nat)
    ensures XorBits(a, XorBits(a, b)) == b
    decreases a + b
  {
    if a != 0 {
      var x := XorBits(a, b);
      var y := XorBits(a, x);
      XorBitsUnfold(a, b);
      XorBitsUnfold(a, x);
      assert y % 2 == b % 2 by { Parity(a, a, b, 0, x); }
      assert y / 2 == b / 2 by { XorBitsInverse(a / 2, b / 2); }
      SameHalves(y, b);
    }
  }

  lemma {:induction false} XorBitsCommutative(a: nat, b: nat)
    ensures XorBits(a, b) == XorBits(b, a)
    decreases a + b
  {
    if a != 0 && b != 0 {
      XorBitsCommutative(a / 2, b / 2);
    }
  }

  /** The bit of `n` that stands for 2 to the power of `k`. */
  function Bit(n: nat, k: nat): nat {
    if k == 0 then n % 2 else Bit(n / 2, k - 1)
  }

  /** Each bit of the exclusive-or is set if exactly one of the two bits is. */
  lemma {:induction false} XorBitsBits(a: nat, b: nat, k: nat)
    ensures Bit(XorBits(a, b), k) == (Bit(a, k) + Bit(b, k)) % 2
    decreases k
  {
    XorBitsUnfold(a, b);
    hide XorBits;
    if k == 0 {
      SumParity(a, b);
    } else {
      XorBitsBits(a / 2, b / 2, k - 1);
    }
  }

  lemma SumParity(a: nat, b: nat)
    ensures (a + b) % 2 == (a % 2 + b % 2) % 2
  {
  }

  function Mix(a: byte, b: byte): byte {
    assert Pow2(8) == 256;
    XorBitsBound(a, b, 8);
    XorBits(a, b)
  }

  function Xor(s: seq<byte>): byte {
    if s == [] then 0 else Mix(Xor(s[..|s| - 1]), s[|s| - 1])
  }

  lemma XorSnoc(s: seq<byte>, b: byte)
    ensures Xor(s + [b]) == Mix(Xor(s), b)
  {
    assert (s + [b])[..|s|] == s;
  }

  lemma {:induction false} XorConcat(s: seq<byte>, t: seq<byte>)
    ensures Xor(s + t) == Mix(Xor(s), Xor(t))
  {
    if t == [] {
      assert s + t == s;
    } else {
      var init, last := t[..|t| - 1], t[|t| - 1];
      XorConcat(s, init);
      XorSnoc(s + init, last);
      assert s + t == (s + init) + [last];
      XorBitsAssociative(Xor(s), Xor(init), last);
    }
  }

  /** A byte mixed into a running checksum clears it exactly when the two are equal. */
  lemma MixZero(a: byte, b: byte)
    ensures Mix(a, b) == 0 <==> a == b
  {
    XorBitsInverse(a, b);
    XorBitsInverse(a, 0);
  }

  /** Changing exactly one byte always changes the exclusive-or of a string. */
  lemma XorDetectsOneByte(s: seq<byte>, k: nat, b: byte)
    requires k < |s| && s[k] != b
    ensures Xor(s[k := b]) != Xor(s)
  {
    var l, r := s[..k], s[k + 1..];
    assert s == l + [s[k]] + r;
    assert s[k := b] == l + [b] + r;
    XorConcat(l + [s[k]], r);
    XorConcat(l + [b], r);
    XorSnoc(l, s[k]);
    XorSnoc(l, b);
    Cancel(Xor(l), s[k], b, Xor(r));
  }

  lemma Cancel(x: byte, p: byte, q: byte, y: byte)
    requires p != q
    ensures Mix(Mix(x, p), y) != Mix(Mix(x, q), y)
  {
    XorBitsCommutative(Mix(x, p), y);
    XorBitsCommutative(Mix(x, q), y);
    XorBitsInverse(y, Mix(x, p));
    XorBitsInverse(y, Mix(x, q));
    XorBitsInverse(x, p);
    XorBitsInverse(x, q);
  }

  /** The two bytes of a 16-bit length, high byte first. */
  function Length16(hi: byte, lo: byte): (n: nat)
    ensures n <= 0xFFFF
  {
    hi * 256 + lo
  }

  const ZERO: byte := 0x30
  const NINE: byte := 0x39

  /** A decimal numeral in ASCII. */
  function Decimal(n: nat): (d: seq<byte>)
    ensures d != [] && (d[0] == ZERO <==> n == 0)
    ensures forall i :: 0 <= i < |d| ==> ZERO <= d[i] <= NINE
  {
    var d := Numerals.Decimal(n);
    seq(|d|, i requires 0 <= i < |d| => d[i] as int)
  }

  /** The number that ASCII digits stand for. */
  function Number(d: seq<byte>): int {
    if d == [] then 0 else Number(d[..|d| - 1]) * 10 + d[|d| - 1] - 0x30
  }

  lemma {:induction false} NumberDigits(s: string, d: seq<byte>)
    requires Numerals.AllDigits(s) && |d| == |s| && forall i :: 0 <= i < |s| ==> d[i] == s[i] as int
    ensures Number(d) == Numerals.Digits(s)
    decreases |s|
  {
    if s != "" {
      NumberDigits(s[..|s| - 1], d[..|s| - 1]);
    }
  }

  lemma DecimalNumber(n: nat)
    ensures Number(Decimal(n)) == n
  {
    NumberDigits(Numerals.Decimal(n), Decimal(n));
    Numerals.DecimalDigits(n);
  }
}
