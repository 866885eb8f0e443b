/** Machine words, options, little-endian words and bit sets: the vocabulary of every wire format below. */
module Words {
  type byte = x: int | 0 <= x < 0x100
  type uint8 = byte
  type uint16 = x: int | 0 <= x < 0x1_0000
  type uint32 = x: int | 0 <= x < 0x1_0000_0000
  type uint64 = x: int | 0 <= x < 0x1_0000_0000_0000_0000

  datatype Option<+T> = None | Some(value: T)

  /** The newer of two values, if there is one. */
  function Later<T>(a: Option<T>, b: Option<T>): Option<T> {
    if b.Some? then b else a
  }

  /** 256 to the n: the number of values an n-byte word has. */
  function Pow256(n: nat): (p: nat)
    ensures p > 0
  {
    if n == 0 then 1 else 256 * Pow256(n - 1)
  }

  /** The n low bytes of v, least significant first. */
  function ToLE(n: nat, v: nat): (s: seq<byte>)
    ensures |s| == n
  {
    if n == 0 then [] else [v % 256] + ToLE(n - 1, v / 256)
  }

  /** The number a least-significant-first byte string denotes. */
  function FromLE(s: seq<byte>): (v: nat)
    ensures v < Pow256(|s|)
  {
    if s == [] then 0 else s[0] + 256 * FromLE(s[1..])
  }

  lemma {:induction false} LERoundTrip(n: nat, v: nat)
    requires v < Pow256(n)
    ensures FromLE(ToLE(n, v)) == v
  {
    if n > 0 {
      LERoundTrip(n - 1, v / 256);
      assert ToLE(n, v)[1..] == ToLE(n - 1, v / 256);
    }
  }

  lemma LowByte(b: byte, v: nat)
    ensures (b + 256 * v) % 256 == b && (b + 256 * v) / 256 == v
  {
  }

  lemma {:induction false} ToLEOfFromLE(s: seq<byte>)
    ensures ToLE(|s|, FromLE(s)) == s
  {
    if s != [] {
      LowByte(s[0], FromLE(s[1..]));
      ToLEOfFromLE(s[1..]);
      assert s == [s[0]] + s[1..];
    }
  }

  lemma WordSizes()
    ensures Pow256(1) == 0x100 && Pow256(2) == 0x1_0000 && Pow256(4) == 0x1_0000_0000
    ensures Pow256(8) == 0x1_0000_0000_0000_0000
  {
    assert Pow256(2) == 256 * Pow256(1);
    assert Pow256(3) == 256 * Pow256(2);
    assert Pow256(4) == 256 * Pow256(3);
    assert Pow256(5) == 256 * Pow256(4);
    assert Pow256(6) == 256 * Pow256(5);
    assert Pow256(7) == 256 * Pow256(6);
  }

  // ----- words as sets of bits -----

  function Pow2(n: nat): (p: nat)
    ensures p > 0
  {
    if n == 0 then 1 else 2 * Pow2(n - 1)
  }

  /** Whether bit i of m is set. */
  predicate Bit(m: nat, i: nat) {
    if i == 0 then m % 2 == 1 else Bit(m / 2, i - 1)
  }

  /** Bitwise conjunction. */
  function And(a: nat, b: nat): nat
  {
    if a == 0 || b == 0 then 0 else (if a % 2 == 1 && b % 2 == 1 then 1 else 0) + 2 * And(a / 2, b / 2)
  }

  predicate Has(flags: nat, flag: nat) {
    And(flags, flag) != 0
  }

  /** math/bits.OnesCount. */
  function OnesCount(m: nat): nat {
    if m == 0 then 0 else m % 2 + OnesCount(m / 2)
  }

  /** math/bits.TrailingZeros of a nonzero word. */
  function TrailingZeros(m: nat): nat
    requires m != 0
  {
    if m % 2 == 1 then 0 else 1 + TrailingZeros(m / 2)
  }

  lemma {:induction false} AndSelf(a: nat)
    ensures And(a, a) == a
  {
    if a != 0 {
      AndSelf(a / 2);
    }
  }

  lemma {:induction false} AndAtMost(a: nat, b: nat)
    ensures And(a, b) <= b
  {
    if a != 0 && b != 0 {
      AndAtMost(a / 2, b / 2);
    }
  }

  lemma ClearLowestOfOdd(k: nat)
    ensures And(2 * k + 1, 2 * k) == 2 * k
  {
    AndSelf(k);
    assert (2 * k + 1) / 2 == k && (2 * k) / 2 == k && (2 * k) % 2 == 0;
  }

  lemma ClearLowestOfEven(k: nat)
    requires k != 0
    ensures And(2 * k, 2 * k - 1) == 2 * And(k, k - 1)
  {
    assert (2 * k) / 2 == k && (2 * k) % 2 == 0;
    assert (2 * k - 1) / 2 == k - 1;
  }

  lemma OnesCountOfEven(k: nat)
    ensures OnesCount(2 * k) == OnesCount(k)
  {
    assert (2 * k) / 2 == k && (2 * k) % 2 == 0;
  }

  lemma OnesCountOfOdd(k: nat)
    ensures OnesCount(1 + 2 * k) == 1 + OnesCount(k)
  {
    assert (1 + 2 * k) / 2 == k && (1 + 2 * k) % 2 == 1;
  }

  /** m & (m - 1) clears exactly the lowest set bit. */
  lemma {:induction false} ClearLowest(m: nat)
    requires m != 0
    ensures And(m, m - 1) == m - Pow2(TrailingZeros(m))
    ensures OnesCount(And(m, m - 1)) == OnesCount(m) - 1
    decreases m
  {
    var k := m / 2;
    if m % 2 == 1 {
      ClearLowestOfOdd(k);
      OnesCountOfEven(k);
    } else {
      ClearLowest(k);
      ClearLowestOfEven(k);
      OnesCountOfEven(And(k, k - 1));
      assert m == 2 * k;
    }
  }

  // ----- what the bit operations mean -----

  lemma {:induction false} ZeroHasNoBits(b: nat)
    ensures !Bit(0, b)
  {
    if b > 0 {
      ZeroHasNoBits(b - 1);
    }
  }

  lemma HalfOf(v: nat, p: nat)
    requires p > 0
    ensures v / (2 * p) == v / 2 / p
  {
    var q := v / 2 / p;
    assert v / 2 == q * p + v / 2 % p;
    assert v == (2 * p) * q + (2 * (v / 2 % p) + v % 2);
    QuotientIs(v, 2 * p, q, 2 * (v / 2 % p) + v % 2);
  }

  lemma Grows(d: int, k: int)
    requires d >= 0
    ensures k >= 1 ==> d * k >= d
    ensures k <= -1 ==> d * k <= -d
  {
  }

  lemma NoMultipleBetween(d: int, k: int, x: int)
    requires d * k == x && -d < x < d
    ensures k == 0
  {
    Grows(d, k);
  }

  lemma QuotientIs(v: nat, d: nat, q: nat, r: nat)
    requires d > 0 && v == d * q + r && r < d
    ensures v / d == q
  {
    var q' := v / d;
    assert v == d * q' + v % d;
    NoMultipleBetween(d, q' - q, r - v % d);
  }

  /** Bit i of m is the last binary digit of m shifted right by i. */
  lemma {:induction false} BitIsDigit(m: nat, i: nat)
    ensures Bit(m, i) <==> m / Pow2(i) % 2 == 1
    decreases i
  {
    if i > 0 {
      BitIsDigit(m / 2, i - 1);
      HalfOf(m, Pow2(i - 1));
    }
  }

  lemma AndStep(a: nat, b: nat)
    ensures And(a, b) == (if a % 2 == 1 && b % 2 == 1 then 1 else 0) + 2 * And(a / 2, b / 2)
  {
    if a == 0 || b == 0 {
      assert a / 2 == 0 || b / 2 == 0;
    }
  }

  lemma CommonBit(f: nat, g: nat, i: nat)
    requires Bit(f, i) && Bit(g, i)
    ensures exists j: nat :: Bit(f, j) && Bit(g, j)
  {
  }

  /** flags & flag != 0: the two have a bit in common. */
  lemma {:induction false} HasIffCommonBit(f: nat, g: nat)
    ensures Has(f, g) <==> exists i: nat :: Bit(f, i) && Bit(g, i)
    decreases f
  {
    if f == 0 {
      forall i: nat ensures !Bit(f, i) {
        ZeroHasNoBits(i);
      }
    } else {
      AndStep(f, g);
      HasIffCommonBit(f / 2, g / 2);
      if f % 2 == 1 && g % 2 == 1 {
        assert Has(f, g);
        CommonBit(f, g, 0);
      } else if Has(f / 2, g / 2) {
        var i: nat :| Bit(f / 2, i) && Bit(g / 2, i);
        assert Has(f, g) && Bit(f, i + 1) && Bit(g, i + 1);
        CommonBit(f, g, i + 1);
      } else {
        forall i: nat ensures !(Bit(f, i) && Bit(g, i)) {
          if i > 0 {
            assert !(Bit(f / 2, i - 1) && Bit(g / 2, i - 1));
          }
        }
      }
    }
  }

  lemma {:induction false} BitsOfPower(n: nat, i: nat)
    ensures Bit(Pow2(n), i) <==> i == n
  {
    if n == 0 {
      if i > 0 {
        ZeroHasNoBits(i - 1);
      }
    } else if i > 0 {
      assert Pow2(n) / 2 == Pow2(n - 1);
      BitsOfPower(n - 1, i - 1);
    }
  }

  lemma HasBit(f: nat, n: nat)
    ensures Has(f, Pow2(n)) <==> Bit(f, n)
  {
    HasIffCommonBit(f, Pow2(n));
    BitsOfPower(n, n);
    forall i: nat ensures Bit(Pow2(n), i) <==> i == n {
      BitsOfPower(n, i);
    }
  }

  lemma {:induction false} BitsOfTwoPowers(m: nat, n: nat, i: nat)
    requires m < n
    ensures Bit(Pow2(m) + Pow2(n), i) <==> i == m || i == n
    decreases m
  {
    var p := Pow2(n - 1);
    if m == 0 {
      assert (1 + 2 * p) / 2 == p;
      if i > 0 {
        BitsOfPower(n - 1, i - 1);
      }
    } else {
      var q := Pow2(m - 1);
      assert (2 * q + 2 * p) / 2 == q + p && (2 * q + 2 * p) % 2 == 0;
      if i > 0 {
        BitsOfTwoPowers(m - 1, n - 1, i - 1);
      }
    }
  }

  lemma HasEitherBit(f: nat, m: nat, n: nat)
    requires m < n
    ensures Has(f, Pow2(m) + Pow2(n)) <==> Bit(f, m) || Bit(f, n)
  {
    var both := Pow2(m) + Pow2(n);
    HasIffCommonBit(f, both);
    forall i: nat ensures Bit(both, i) <==> i == m || i == n {
      BitsOfTwoPowers(m, n, i);
    }
  }

  /** Byte i of a word is its digit number i to the base 256. */
  lemma {:induction false} BytesAreDigits(n: nat, v: nat, i: nat)
    requires i < n
    ensures ToLE(n, v)[i] == v / Pow256(i) % 256
    decreases i
  {
    if i > 0 {
      BytesAreDigits(n - 1, v / 256, i - 1);
      assert ToLE(n, v)[1..] == ToLE(n - 1, v / 256);
      ShiftOf(v, Pow256(i - 1));
    }
  }

  lemma ShiftOf(v: nat, p: nat)
    requires p > 0
    ensures v / (256 * p) == v / 256 / p
  {
    var q := v / 256 / p;
    assert v / 256 == q * p + v / 256 % p;
    assert v == (256 * p) * q + (256 * (v / 256 % p) + v % 256);
    QuotientIs(v, 256 * p, q, 256 * (v / 256 % p) + v % 256);
  }
}
