/**
 * The Xoroshiro128+ generator that replaces `java.util.Random`: a state of two 64-bit
 * words, stepped by xor, shift and rotate, whose output is the sum of the two words. The
 * seed hash (MurmurHash3) is not part of this model and enters as a function parameter.
 */
module Xoroshiro {
  import opened JavaTypes

  datatype State = State(s0: bv64, s1: bv64)

  const ZERO: State := State(0, 0)

  /** `a + b` on `long`s: bit-vector addition wraps at 64 bits as Java's does. */
  function Add(a: bv64, b: bv64): bv64
  {
    a + b
  }

  /** The value `nextLong` returns for a state: `s0 + s1`. */
  function Output(st: State): bv64
  {
    Add(st.s0, st.s1)
  }

  /** `Long.rotateLeft(x, 55)`, that is `(x << 55) | (x >>> -55)`. */
  function RotL55(x: bv64): bv64
  {
    (x << 55) | (x >> 9)
  }

  /** `Long.rotateLeft(x, 36)`. */
  function RotL36(x: bv64): bv64
  {
    (x << 36) | (x >> 28)
  }

  /** The rotations back. */
  function RotR55(x: bv64): bv64
  {
    (x >> 55) | (x << 9)
  }

  function RotR36(x: bv64): bv64
  {
    (x >> 36) | (x << 28)
  }

  function Xor(a: bv64, b: bv64): bv64
  {
    a ^ b
  }

  /** `t ^ t << 14`. */
  function Spread(t: bv64): bv64
  {
    t ^ (t << 14)
  }

  /**
   * The state update of `nextLong`: `t = s1 ^ s0`, `s0' = rotl(s0, 55) ^ t ^ (t << 14)`,
   * `s1' = rotl(t, 36)`.
   */
  function Step(st: State): State
  {
    var t := Xor(st.s1, st.s0);
    State(Xor(RotL55(st.s0), Spread(t)), RotL36(t))
  }

  /** Undoing one step: `t` comes back from `s1'`, then `s0` from `s0'` and `t`. */
  function Unstep(st: State): State
  {
    var t := RotR36(st.s1);
    var s0 := RotR55(Xor(st.s0, Spread(t)));
    State(s0, Xor(t, s0))
  }

  /** The state after n calls of `nextLong`. */
  function Iterate(st: State, n: nat): State
  {
    if n == 0 then st else Step(Iterate(st, n - 1))
  }

  lemma XorTwice(a: bv64, b: bv64)
    ensures Xor(Xor(a, b), b) == a
  {
  }

  lemma Rotations(x: bv64)
    ensures RotR55(RotL55(x)) == x && RotL55(RotR55(x)) == x
    ensures RotR36(RotL36(x)) == x && RotL36(RotR36(x)) == x
  {
  }

  /** The step is a bijection on states: `Unstep` is its inverse on both sides. */
  lemma UnstepStep(st: State)
    ensures Unstep(Step(st)) == st
  {
    var t := Xor(st.s1, st.s0);
    Rotations(t);
    XorTwice(RotL55(st.s0), Spread(t));
    Rotations(st.s0);
    XorTwice(st.s1, st.s0);
  }

  lemma StepUnstep(st: State)
    ensures Step(Unstep(st)) == st
  {
    var t := RotR36(st.s1);
    Rotations(st.s1);
    var x := Xor(st.s0, Spread(t));
    var s0 := RotR55(x);
    Rotations(x);
    XorTwice(t, s0);
    XorTwice(st.s0, Spread(t));
  }

  /** `(0, 0)` steps to itself, and it is the only state that steps to `(0, 0)`. */
  lemma ZeroIsFixed()
    ensures Step(ZERO) == ZERO
  {
  }

  lemma NonzeroStaysNonzero(st: State)
    ensures st != ZERO <==> Step(st) != ZERO
  {
    UnstepStep(st);
    if Step(st) == ZERO {
      assert Unstep(ZERO) == ZERO;
    }
  }

  /** Every later state of a nonzero seed is nonzero. */
  lemma {:induction false} IterateNonzero(st: State, n: nat)
    requires st != ZERO
    ensures Iterate(st, n) != ZERO
  {
    if n > 0 {
      IterateNonzero(st, n - 1);
      NonzeroStaysNonzero(Iterate(st, n - 1));
    }
  }

  /** `s0 = hash(seed)`, `s1 = hash(s0)`. */
  function Seeded(hash: bv64 -> bv64, seed: bv64): State
  {
    State(hash(seed), hash(hash(seed)))
  }

  /** The constructor's state: a zero pair is replaced by the one seeded from `0xdeadbeef`. */
  function InitialState(hash: bv64 -> bv64, seed: bv64): State
  {
    if Seeded(hash, seed) == ZERO then Seeded(hash, 0xdead_beef) else Seeded(hash, seed)
  }

  /**
   * For a hash that is injective and maps 0 to 0 (as the MurmurHash3 finaliser does), the
   * constructor never leaves the zero state, the one state the generator cannot leave.
   */
  lemma InitialStateNonzero(hash: bv64 -> bv64, seed: bv64)
    requires hash(0) == 0
    requires forall a: bv64, b: bv64 :: hash(a) == hash(b) ==> a == b
    ensures InitialState(hash, seed) != ZERO
  {
    if Seeded(hash, seed) == ZERO {
      assert hash(0xdead_beef) != hash(0);
    }
  }

  /** `(int) l`: the low 32 bits. */
  function IntOf(w: bv64): bv32
  {
    (w & 0xFFFF_FFFF) as bv32
  }

  /**
   * `l >= 0` for a `long` given as its bit pattern: in two's complement the non-negative
   * values are the patterns below 2^63.
   */
  predicate NonNegativeLong(w: bv64)
  {
    w < 0x8000_0000_0000_0000
  }

  /** `nextLong() >= 0` holds exactly when the sign bit is clear. */
  lemma NonNegativeIsSignBitClear(w: bv64)
    ensures NonNegativeLong(w) <==> w >> 63 == 0
  {
  }

  /**
   * `((int) nextLong()) >>> (32 - bits)`, with `bits` given as its 32-bit pattern: Java
   * keeps only the low five bits of an `int` shift distance.
   */
  function TopBits(v: bv32, bits: bv32): bv32
  {
    v >> ((32 - bits) & 31)
  }

  /** For `1 <= bits < 32` the result of `next(bits)` lies in `[0, 2^bits)`. */
  lemma TopBitsBound(v: bv32, bits: bv32)
    requires 1 <= bits < 32
    ensures TopBits(v, bits) < 1 << bits
  {
  }

  /** With `bits == 32` the shift distance is 0 and the whole int comes back. */
  lemma TopBitsAll(v: bv32)
    ensures TopBits(v, 32) == v
  {
  }

  /** The low byte of a `long`, as `(byte) rnd` keeps it. */
  function LowByte(w: bv64): bv8
  {
    (w & 0xFF) as bv8
  }

  /** `rnd >>>= 8`. */
  function Shr8(w: bv64): bv64
  {
    w >> 8
  }

  /** w after j times `rnd >>>= 8`. */
  function ShrBytes(w: bv64, j: nat): bv64
  {
    if j == 0 then w else Shr8(ShrBytes(w, j - 1))
  }

  /** Byte j of w, least significant first: what `(byte) rnd` reads after j `rnd >>>= 8`. */
  function ByteOf(w: bv64, j: nat): bv8
  {
    LowByte(ShrBytes(w, j))
  }

  /** Bytes 4 to 7 of a sign-extended int are all `0x00` or all `0xFF`, after its sign. */
  lemma HighBytesOfInt(v: bv32, j: nat)
    requires 4 <= j < 8
    ensures ByteOf(LongOf(v), j) == if v & 0x8000_0000 == 0 then 0 else 0xFF
  {
    var w := LongOf(v);
    var w4 := Shr8(Shr8(Shr8(Shr8(w))));
    assert ShrBytes(w, 2) == Shr8(ShrBytes(w, 1)) == Shr8(Shr8(w));
    assert ShrBytes(w, 4) == Shr8(ShrBytes(w, 3)) == Shr8(Shr8(ShrBytes(w, 2))) == w4;
    if j == 5 {
      assert ShrBytes(w, 5) == Shr8(w4);
    } else if j == 6 {
      assert ShrBytes(w, 6) == Shr8(ShrBytes(w, 5)) == Shr8(Shr8(w4));
    } else if j == 7 {
      assert ShrBytes(w, 7) == Shr8(ShrBytes(w, 6)) == Shr8(Shr8(ShrBytes(w, 5))) == Shr8(Shr8(Shr8(w4)));
    }
  }

  /** Byte i of what `nextBytes` writes, from state st: group i / 8, byte i % 8. */
  function FilledByte(st: State, i: nat): bv8
  {
    ByteOf(LongOf(IntOf(Output(Iterate(st, i / 8)))), i % 8)
  }

  /**
   * As written, bytes 4 to 7 of every group of eight copy the sign of the group's `nextInt`:
   * each of them is `0x00` or `0xFF`, so half of the buffer carries one bit per byte.
   */
  lemma {:induction false} FilledHighBytesAreSign(st: State, i: nat)
    requires 4 <= i % 8
    ensures FilledByte(st, i) == if IntOf(Output(Iterate(st, i / 8))) & 0x8000_0000 == 0 then 0 else 0xFF
  {
    HighBytesOfInt(IntOf(Output(Iterate(st, i / 8))), i % 8);
  }

  /** j times `rnd >>>= 8` is one shift by 8j, for each j from 2 to 7. */
  lemma ShrBytes2(w: bv64) ensures ShrBytes(w, 2) == w >> 16 { assert ShrBytes(w, 1) == w >> 8; }
  lemma ShrBytes3(w: bv64) ensures ShrBytes(w, 3) == w >> 24 { ShrBytes2(w); }
  lemma ShrBytes4(w: bv64) ensures ShrBytes(w, 4) == w >> 32 { ShrBytes3(w); }
  lemma ShrBytes5(w: bv64) ensures ShrBytes(w, 5) == w >> 40 { ShrBytes4(w); }
  lemma ShrBytes6(w: bv64) ensures ShrBytes(w, 6) == w >> 48 { ShrBytes5(w); }
  lemma ShrBytes7(w: bv64) ensures ShrBytes(w, 7) == w >> 56 { ShrBytes6(w); }

  /** The eight bytes of a `long`, each read through a constant shift. */
  lemma BytesOfLong(w: bv64)
    ensures ByteOf(w, 0) == (w & 0xFF) as bv8 && ByteOf(w, 1) == ((w >> 8) & 0xFF) as bv8
    ensures ByteOf(w, 2) == ((w >> 16) & 0xFF) as bv8 && ByteOf(w, 3) == ((w >> 24) & 0xFF) as bv8
    ensures ByteOf(w, 4) == ((w >> 32) & 0xFF) as bv8 && ByteOf(w, 5) == ((w >> 40) & 0xFF) as bv8
    ensures ByteOf(w, 6) == ((w >> 48) & 0xFF) as bv8 && ByteOf(w, 7) == ((w >> 56) & 0xFF) as bv8
  {
    assert ShrBytes(w, 1) == w >> 8;
    ShrBytes2(w); ShrBytes3(w); ShrBytes4(w); ShrBytes5(w); ShrBytes6(w); ShrBytes7(w);
  }

  /** Eight bytes, least significant first, pin down a `long`. */
  lemma BytesDetermineLong(w: bv64, w': bv64)
    requires forall j :: 0 <= j < 8 ==> ByteOf(w, j) == ByteOf(w', j)
    ensures w == w'
  {
    BytesOfLong(w);
    BytesOfLong(w');
    assert ByteOf(w, 0) == ByteOf(w', 0) && ByteOf(w, 1) == ByteOf(w', 1);
    assert ByteOf(w, 2) == ByteOf(w', 2) && ByteOf(w, 3) == ByteOf(w', 3);
    assert ByteOf(w, 4) == ByteOf(w', 4) && ByteOf(w, 5) == ByteOf(w', 5);
    assert ByteOf(w, 6) == ByteOf(w', 6) && ByteOf(w, 7) == ByteOf(w', 7);
  }

  /** Byte i of `nextBytes` as evidently intended: byte i % 8 of the whole `nextLong` of group i / 8. */
  function DrawnByte(st: State, i: nat): bv8
  {
    ByteOf(Output(Iterate(st, i / 8)), i % 8)
  }

  /** With whole draws, the eight bytes of group k are exactly the k-th `nextLong` and nothing else. */
  lemma DrawnGroupIsTheDraw(st: State, k: nat, w: bv64)
    ensures (forall j :: 0 <= j < 8 ==> DrawnByte(st, 8 * k + j) == ByteOf(w, j)) <==> w == Output(Iterate(st, k))
  {
    forall j | 0 <= j < 8
      ensures DrawnByte(st, 8 * k + j) == ByteOf(Output(Iterate(st, k)), j)
    {
      GroupIndex(k, j);
    }
    if forall j :: 0 <= j < 8 ==> DrawnByte(st, 8 * k + j) == ByteOf(w, j) {
      BytesDetermineLong(w, Output(Iterate(st, k)));
    }
  }

  /** `Xoroshiro128PlusRandom`: the two words, stepped by every draw. */
  class Xoroshiro128PlusRandom {
    var s0: bv64
    var s1: bv64

    function Current(): State
      reads this
    {
      State(s0, s1)
    }

    /**
     * The `super(0)` call of the constructor reaches `setSeed` while both words are still
     * zero, which is why `setSeed` accepts that state; then the words are seeded.
     */
    constructor(seed: bv64, hash: bv64 -> bv64)
      ensures Current() == InitialState(hash, seed)
    {
      s0, s1 := 0, 0;
      new;
      var ok := SetSeed(0);
      assert ok;
      var st := InitialState(hash, seed);
      s0, s1 := st.s0, st.s1;
    }

    /** `setSeed`: accepted (and ignored) only in the zero state; otherwise it throws. */
    method SetSeed(seed: bv64) returns (ok: bool)
      ensures ok <==> Current() == ZERO
    {
      ok := s0 == 0 && s1 == 0;
    }

    /** `nextLong`: the sum of the old words; the state takes one step. */
    method NextLong() returns (r: bv64)
      modifies this
      ensures r == Output(old(Current()))
      ensures Current() == Step(old(Current()))
    {
      var a := s0;
      var b := s1;
      r := Add(a, b);
      b := Xor(b, a);
      s0 := Xor(RotL55(a), Spread(b));
      s1 := RotL36(b);
    }

    /** `nextInt`: the low half of one `nextLong`. */
    method NextInt() returns (r: bv32)
      modifies this
      ensures r == IntOf(Output(old(Current())))
      ensures Current() == Step(old(Current()))
    {
      var l := NextLong();
      r := IntOf(l);
    }

    /** `next(bits)`: the top `bits` bits of one `nextInt`. */
    method NextBits(bits: bv32) returns (r: bv32)
      modifies this
      ensures r == TopBits(IntOf(Output(old(Current()))), bits)
      ensures Current() == Step(old(Current()))
    {
      var v := NextInt();
      r := TopBits(v, bits);
    }

    /** `nextBoolean`: whether one `nextLong` is non-negative. */
    method NextBoolean() returns (b: bool)
      modifies this
      ensures b <==> NonNegativeLong(Output(old(Current())))
      ensures Current() == Step(old(Current()))
    {
      var l := NextLong();
      b := NonNegativeLong(l);
    }

    /**
     * `nextBytes`: every byte is filled, eight from each `nextInt` (sign-extended, least
     * significant byte first), so the state takes `ceil(len / 8)` steps.
     */
    method NextBytes(bytes: array<bv8>)
      modifies this, bytes
      ensures forall i :: 0 <= i < bytes.Length ==> bytes[i] == FilledByte(old(Current()), i)
      ensures Current() == Iterate(old(Current()), (bytes.Length + 7) / 8)
    {
      ghost var start := Current();
      var len := bytes.Length;
      var i := 0;
      ghost var k: nat := 0;
      while i < len
        invariant 0 <= i <= len
        invariant i == len || i == 8 * k
        invariant i == len ==> k == (len + 7) / 8
        invariant Current() == Iterate(start, k)
        invariant forall j :: 0 <= j < i ==> bytes[j] == FilledByte(start, j)
        decreases len - i
      {
        var v := NextInt();
        ghost var i0 := i;
        i := FillGroup(bytes, i, LongOf(v));
        forall j | i0 <= j < i
          ensures bytes[j] == FilledByte(start, j)
        {
          GroupIndex(k, j - i0);
        }
        k := k + 1;
      }
    }

    /**
     * `nextBytes` as evidently intended: eight bytes from each whole `nextLong`, least
     * significant first, with the same number of steps.
     */
    method NextBytesFromLong(bytes: array<bv8>)
      modifies this, bytes
      ensures forall i :: 0 <= i < bytes.Length ==> bytes[i] == DrawnByte(old(Current()), i)
      ensures Current() == Iterate(old(Current()), (bytes.Length + 7) / 8)
    {
      ghost var start := Current();
      var len := bytes.Length;
      var i := 0;
      ghost var k: nat := 0;
      while i < len
        invariant 0 <= i <= len
        invariant i == len || i == 8 * k
        invariant i == len ==> k == (len + 7) / 8
        invariant Current() == Iterate(start, k)
        invariant forall j :: 0 <= j < i ==> bytes[j] == DrawnByte(start, j)
        decreases len - i
      {
        var v := NextLong();
        ghost var i0 := i;
        i := FillGroup(bytes, i, v);
        forall j | i0 <= j < i
          ensures bytes[j] == DrawnByte(start, j)
        {
          GroupIndex(k, j - i0);
        }
        k := k + 1;
      }
    }

    /** The inner loop of `nextBytes`: up to eight bytes of one sign-extended draw. */
    static method FillGroup(bytes: array<bv8>, i: int, rnd: bv64) returns (i': int)
      requires 0 <= i < bytes.Length
      modifies bytes
      ensures i' == Min(bytes.Length, i + 8)
      ensures forall j :: i <= j < i' ==> bytes[j] == ByteOf(rnd, j - i)
      ensures forall j :: 0 <= j < i ==> bytes[j] == old(bytes[j])
    {
      var n := Min(bytes.Length - i, 8);
      var r := rnd;
      i' := i;
      while n > 0
        invariant 0 <= n && i <= i' && i' + n == Min(bytes.Length, i + 8)
        invariant r == ShrBytes(rnd, i' - i)
        invariant forall j :: i <= j < i' ==> bytes[j] == ByteOf(rnd, j - i)
        invariant forall j :: 0 <= j < i ==> bytes[j] == old(bytes[j])
      {
        n := n - 1;
        bytes[i'] := LowByte(r);
        i' := i' + 1;
        r := Shr8(r);
      }
    }
  }

  /** Byte m of group k sits at index `8k + m`. */
  lemma GroupIndex(k: nat, m: nat)
    requires m < 8
    ensures (8 * k + m) / 8 == k && (8 * k + m) % 8 == m
  {
    DivMod(k, m, 8);
  }
}
