/**
 * Java's fixed-width integer semantics, written out on Dafny's unbounded `int`:
 * the signed `byte`, the `(byte)` and `(int)` narrowing casts, `Byte.toUnsignedInt`
 * and the truncating integer division `/`.
 */
module JavaTypes {

  /** A Java `byte`. */
  newtype int8 = x: int | -128 <= x < 128

  const TWO_32: int := 0x1_0000_0000

  predicate IsInt32(x: int)
  {
    -0x8000_0000 <= x < 0x8000_0000
  }

  /** The `(byte) v` narrowing cast: keeps the low eight bits, read as two's complement. */
  function ToByte(v: int): (b: int8)
    ensures (b as int - v) % 256 == 0
    ensures 0 <= v < 128 ==> b as int == v
  {
    var m := v % 256;
    if m >= 128 then (m - 256) as int8 else m as int8
  }

  /** `Byte.toUnsignedInt(b)`. */
  function UnsignedByte(b: int8): (u: int)
    ensures 0 <= u < 256
    ensures (u - b as int) % 256 == 0
  {
    if b < 0 then b as int + 256 else b as int
  }

  /** A slot below 256 survives the trip through a signed byte. */
  lemma ByteRoundTrip(v: int)
    requires 0 <= v < 256
    ensures UnsignedByte(ToByte(v)) == v
  {
  }

  /** The `(int) x` narrowing cast of a `long` (or any integer): the low 32 bits, signed. */
  function WrapInt32(x: int): (r: int)
    ensures IsInt32(r)
    ensures (r - x) % TWO_32 == 0
    ensures IsInt32(x) ==> r == x
  {
    var m := x % TWO_32;
    if m >= 0x8000_0000 then m - TWO_32 else m
  }

  /** `(long) x`: sign extension of a Java int, given as its 32-bit pattern. */
  function LongOf(x: bv32): bv64
  {
    if x & 0x8000_0000 == 0 then x as bv64 else (x as bv64) | 0xFFFF_FFFF_0000_0000
  }

  /** `Math.max`. */
  function Max(a: int, b: int): int
  {
    if a >= b then a else b
  }

  /** `Math.min`. */
  function Min(a: int, b: int): int
  {
    if a <= b then a else b
  }

  function Abs(x: int): nat
  {
    if x < 0 then -x else x
  }

  /**
   * Java's `a / b` on integers: the quotient rounded toward zero, so the remainder
   * takes the sign of the dividend (Dafny's own `/` is Euclidean).
   */
  function JavaDiv(a: int, b: int): (q: int)
    requires b != 0
  {
    if a >= 0 && b > 0 then a / b
    else if a >= 0 then -(a / -b)
    else if b > 0 then -((-a) / b)
    else (-a) / (-b)
  }

  /** The truncating quotient's remainder: magnitude below the divisor's, sign of the dividend. */
  lemma JavaDivRemainder(a: int, b: int)
    requires b != 0
    ensures var rem := a - JavaDiv(a, b) * b;
      Abs(rem) < Abs(b) && (a >= 0 ==> rem >= 0) && (a <= 0 ==> rem <= 0)
  {
    var a', b' := Abs(a), Abs(b);
    var q': int := a' / b';
    EuclidRemainder(a', b');
    assert JavaDiv(a, b) == if (a >= 0) == (b > 0) then q' else -q';
    SignedProduct(q', b', a >= 0, b > 0);
  }

  /** `q * b` for the signed forms of q and b. */
  lemma SignedProduct(q: int, b: int, aPos: bool, bPos: bool)
    ensures (if aPos == bPos then q else -q) * (if bPos then b else -b) == if aPos then q * b else -(q * b)
  {
  }

  /** For a non-negative dividend and a positive divisor the Euclidean remainder lies in `[0, b)`. */
  lemma EuclidRemainder(a: int, b: int)
    requires a >= 0 && b > 0
    ensures 0 <= a - (a / b) * b < b
  {
  }

  /** For a positive divisor Java and Euclidean division differ only on negative dividends. */
  lemma JavaDivNonneg(a: int, b: int)
    requires a >= 0 && b > 0
    ensures JavaDiv(a, b) == a / b
  {
  }

  /** The quotient and remainder of `q * d + r` by `d` when `0 <= r < d`. */
  lemma DivMod(q: int, r: int, d: int)
    requires 0 <= r < d
    ensures (q * d + r) / d == q
    ensures (q * d + r) % d == r
  {
    var n := q * d + r;
    var q', r' := n / d, n % d;
    assert n == q' * d + r';
    assert (q - q') * d == r' - r by {
      assert q * d - q' * d == (q - q') * d;
    }
    if q' < q {
      MulAtLeast(q - q', d);
    } else if q' > q {
      MulAtLeast(q' - q, d);
    }
  }

  lemma MulAtLeast(k: int, d: int)
    requires k >= 1 && d > 0
    ensures k * d >= d
  {
    assert k * d == (k - 1) * d + d;
    assert (k - 1) * d >= 0;
  }

  function Pow2(k: nat): (p: nat)
    ensures p >= 1
  {
    if k == 0 then 1 else 2 * Pow2(k - 1)
  }

  /** Java's `a | b` on non-negative ints, bit by bit from the least significant. */
  function BitOr(a: nat, b: nat): (r: nat)
    decreases a + b
  {
    if a == 0 then b
    else if b == 0 then a
    else 2 * BitOr(a / 2, b / 2) + (if a % 2 == 1 || b % 2 == 1 then 1 else 0)
  }

  /** Or-ing a value into the zero low bits of a shifted field is addition. */
  lemma {:induction false} BitOrDisjoint(hi: nat, lo: nat, k: nat)
    requires lo < Pow2(k)
    ensures BitOr(hi * Pow2(k), lo) == hi * Pow2(k) + lo
    decreases k
  {
    if k == 0 || hi == 0 || lo == 0 {
    } else {
      var m := Pow2(k - 1);
      var h := hi * m;
      assert hi * Pow2(k) == 2 * h by {
        assert Pow2(k) == 2 * m;
      }
      assert lo / 2 < m;
      BitOrDisjoint(hi, lo / 2, k - 1);
      assert BitOr(2 * h, lo) == 2 * BitOr(h, lo / 2) + lo % 2;
    }
  }
}
