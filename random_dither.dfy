/**
 * Random dithering: each channel of a pixel gets a random offset in [-weight, weight],
 * is clamped to [0, 255], and the perturbed colour is looked up in the 128^3 slot
 * table whose layout StaticDither builds.
 *
 * The random stream is an input sequence `offsets`, three per pixel (red, green,
 * blue) in the order the pixels are visited. The slot table is a parameter `table`,
 * and the palette colour of a slot (`MapPalette.getColor(slot).getRGB()`) is a
 * parameter `rgbOf`.
 */
module RandomDithering {
  import opened JavaTypes
  import opened StaticDither

  const LIGHT_WEIGHT: int := 32
  const NORMAL_WEIGHT: int := 64
  const HEAVY_WEIGHT: int := 128

  /** `v > 255 ? 255 : v < 0 ? 0 : v`: the channel after the offset is added. */
  function Clamp(v: int): (c: int)
    ensures 0 <= c <= 255
    ensures 0 <= v <= 255 ==> c == v
    ensures v > 255 ==> c == 255
    ensures v < 0 ==> c == 0
  {
    if v > 255 then 255 else if v < 0 then 0 else v
  }

  /** The table index `red >> 1 << 14 | green >> 1 << 7 | blue >> 1`. */
  function PackIndex(r: int, g: int, b: int): nat
    requires 0 <= r < 256 && 0 <= g < 256 && 0 <= b < 256
  {
    BitOr(BitOr((r / 2) * Pow2(14), (g / 2) * Pow2(7)), b / 2)
  }

  lemma Pow2Values()
    ensures Pow2(7) == SIDE && Pow2(14) == SLAB
  {
    assert Pow2(1) == 2 && Pow2(2) == 4 && Pow2(3) == 8 && Pow2(4) == 16 && Pow2(5) == 32;
    assert Pow2(6) == 64 && Pow2(7) == 128 && Pow2(8) == 256 && Pow2(9) == 512 && Pow2(10) == 1024;
    assert Pow2(11) == 2048 && Pow2(12) == 4096 && Pow2(13) == 8192;
  }

  /**
   * The three bit fields are disjoint, so the or is a sum: the index lies in the
   * table and is the entry StaticDither filled for the even colour below (r, g, b).
   */
  lemma PackIndexLayout(r: int, g: int, b: int)
    requires 0 <= r < 256 && 0 <= g < 256 && 0 <= b < 256
    ensures PackIndex(r, g, b) == (r / 2) * SLAB + (g / 2) * SIDE + b / 2
    ensures PackIndex(r, g, b) < TABLE_SIZE
    ensures ProbeOf(PackIndex(r, g, b)) == Rgb(r - r % 2, g - g % 2, b - b % 2)
  {
    var hi, mid, lo := r / 2, g / 2, b / 2;
    assert r - r % 2 == 2 * hi && g - g % 2 == 2 * mid && b - b % 2 == 2 * lo;
    PackFields(hi, mid, lo);
    ProbeOfFields(PackIndex(r, g, b), hi, mid, lo);
  }

  /** An index made of three 7-bit fields lies in the table and stands for twice those fields. */
  lemma ProbeOfFields(n: int, hi: int, mid: int, lo: int)
    requires 0 <= hi < SIDE && 0 <= mid < SIDE && 0 <= lo < SIDE
    requires n == hi * SLAB + mid * SIDE + lo
    ensures n < TABLE_SIZE && ProbeOf(n) == Rgb(2 * hi, 2 * mid, 2 * lo)
  {
    TableIndexLayout(hi, mid, lo);
  }

  /** Three 7-bit fields at bits 14, 7 and 0: the ors are sums. */
  lemma PackFields(hi: nat, mid: nat, lo: nat)
    requires hi < SIDE && mid < SIDE && lo < SIDE
    ensures BitOr(BitOr(hi * Pow2(14), mid * Pow2(7)), lo) == hi * SLAB + mid * SIDE + lo
  {
    Pow2Values();
    MulMono(mid, 127, SIDE);
    BitOrDisjoint(hi, mid * SIDE, 14);
    assert hi * SLAB + mid * SIDE == (hi * SIDE + mid) * Pow2(7);
    BitOrDisjoint(hi * SIDE + mid, lo, 7);
  }

  /**
   * `getBestColor`: the slot stored for a clamped colour. The table is read at
   * (r/2)*SLAB + (g/2)*SIDE + b/2, the value of the Java index expression
   * `PackIndex`, as BestColorReadsPackIndex shows.
   */
  function BestColor(table: seq<int8>, r: int, g: int, b: int): int8
    requires |table| == TABLE_SIZE
    requires 0 <= r < 256 && 0 <= g < 256 && 0 <= b < 256
  {
    table[(r / 2) * SLAB + (g / 2) * SIDE + b / 2]
  }

  /** `getBestColor` reads the table at the index its shifts and ors compute. */
  lemma BestColorReadsPackIndex(table: seq<int8>, r: int, g: int, b: int)
    requires |table| == TABLE_SIZE
    requires 0 <= r < 256 && 0 <= g < 256 && 0 <= b < 256
    ensures PackIndex(r, g, b) < |table| && BestColor(table, r, g, b) == table[PackIndex(r, g, b)]
  {
    PackIndexLayout(r, g, b);
  }

  /**
   * Looked up in a table that StaticDither built for `palette`, a colour gets the
   * palette slot nearest to its even-floored version.
   */
  lemma BestColorIsNearest(palette: seq<int>, table: seq<int8>, r: int, g: int, b: int)
    requires |table| == TABLE_SIZE
    requires forall n :: 0 <= n < TABLE_SIZE ==> table[n] == TableEntry(palette, n)
    requires 0 <= r < 256 && 0 <= g < 256 && 0 <= b < 256
    ensures BestColor(table, r, g, b) == ToByte(Nearest(palette, Rgb(r - r % 2, g - g % 2, b - b % 2)))
  {
    PackIndexLayout(r, g, b);
  }

  /**
   * `r += random()` on a channel of 0..255: an int addition, so a sum past
   * `Integer.MAX_VALUE` wraps round to a negative value.
   */
  function ChannelSum(v: int, o: int): int
  {
    if v + o > 0x7FFF_FFFF then v + o - TWO_32 else v + o
  }

  /** For an int offset, ChannelSum is Java's int addition; a channel plus a small offset does not wrap. */
  lemma ChannelSumIsIntAddition(v: int, o: int)
    requires 0 <= v <= 255 && IsInt32(o)
    ensures ChannelSum(v, o) == WrapInt32(v + o)
    ensures v + o <= 0x7FFF_FFFF ==> ChannelSum(v, o) == v + o
  {
    if v + o > 0x7FFF_FFFF {
      assert 0 <= v + o - 0x8000_0000 < 0x8000_0000;
      assert (v + o) % TWO_32 == v + o;
    }
  }

  /** Near `Integer.MAX_VALUE` an offset pushes a bright channel round to black: 255 + (2^31 - 2) clamps to 0. */
  lemma ChannelSumWrapsToBlack()
    ensures Clamp(ChannelSum(255, 0x7FFF_FFFE)) == 0
  {
  }

  /** The colour of pixel value `color` after the offsets (dr, dg, db) and clamping. */
  function Perturb(color: int, dr: int, dg: int, db: int): (c: Rgb)
    ensures InRange(c)
  {
    Rgb(Clamp(ChannelSum(Red(color), dr)), Clamp(ChannelSum(Green(color), dg)), Clamp(ChannelSum(Blue(color), db)))
  }

  /** The slot the dither chooses for one pixel. */
  function DitheredSlot(table: seq<int8>, color: int, dr: int, dg: int, db: int): int8
    requires |table| == TABLE_SIZE
  {
    var c := Perturb(color, dr, dg, db);
    BestColor(table, c.r, c.g, c.b)
  }

  /** Zero offsets leave a pixel's channels as they are. */
  lemma ZeroOffsetsArePlainLookup(table: seq<int8>, color: int)
    requires |table| == TABLE_SIZE
    ensures DitheredSlot(table, color, 0, 0, 0) == BestColor(table, Red(color), Green(color), Blue(color))
  {
  }

  /**
   * The pixels the row loops visit: `height = length / width` full rows (Java
   * division), none when that is not positive; a trailing partial row is skipped.
   */
  function Processed(length: nat, width: int): (n: nat)
    requires width != 0
    ensures n <= length
    ensures width < 0 ==> n == 0
    ensures width > 0 ==> n % width == 0 && length - n < width
  {
    var height := JavaDiv(length, width);
    if height > 0 then
      JavaDivNonneg(length, width);
      DivMod(height, 0, width);
      height * width
    else 0
  }

  /** Row y of a `width`-wide image whose first `height` rows fit in `length`. */
  lemma RowFits(y: int, height: int, width: int, length: int)
    requires 0 <= y < height && width > 0 && height * width <= length
    ensures 0 <= y * width && (y + 1) * width <= length
  {
    MulMono(y + 1, height, width);
  }

  /**
   * `RandomDither` with its fixed int weight; `random()` is `nextInt(min, max)`, with
   * `min = -weight` and `max = weight + 1` computed in int arithmetic.
   */
  class RandomDither {
    const weight: int
    const min: int := WrapInt32(-weight)
    const max: int := WrapInt32(weight + 1)

    constructor(weight: int)
      requires IsInt32(weight)
      ensures this.weight == weight
    {
      this.weight := weight;
    }

    /**
     * `nextInt(min, max)` accepts its bounds (else it throws IllegalArgumentException):
     * for a weight from 0 up to `Integer.MAX_VALUE - 1`, and for `Integer.MIN_VALUE`,
     * whose negation wraps back to itself.
     */
    predicate RangeNonEmpty(): (b: bool)
      ensures IsInt32(weight) ==> (b <==> (0 <= weight < 0x7FFF_FFFF || weight == -0x8000_0000))
    {
      min < max
    }

    /**
     * The values `nextInt(min, max)` returns, `max` exclusive: [-weight, weight] for a
     * weight from 0 up to `Integer.MAX_VALUE - 1`, only `Integer.MIN_VALUE` for that weight,
     * and none for any other weight.
     */
    predicate IsOffset(o: int): (b: bool)
      ensures IsInt32(weight) && 0 <= weight < 0x7FFF_FFFF ==> (b <==> -weight <= o <= weight)
      ensures weight == -0x8000_0000 ==> (b <==> o == weight)
      ensures IsInt32(weight) && !RangeNonEmpty() ==> !b
    {
      min <= o < max
    }

    /** The random stream holds enough offsets for `pixels` pixels, all in range. */
    predicate IsStream(offsets: seq<int>, pixels: nat)
    {
      |offsets| >= 3 * pixels && forall i :: 0 <= i < |offsets| ==> IsOffset(offsets[i])
    }

    /** With weight 0 every offset is 0: the dither is plain nearest-colour lookup. */
    lemma WeightZeroIsPlainLookup(table: seq<int8>, color: int, dr: int, dg: int, db: int)
      requires weight == 0 && |table| == TABLE_SIZE
      requires IsOffset(dr) && IsOffset(dg) && IsOffset(db)
      ensures DitheredSlot(table, color, dr, dg, db) == BestColor(table, Red(color), Green(color), Blue(color))
    {
      ZeroOffsetsArePlainLookup(table, color);
    }

    /**
     * `standardMinecraftDither`: a new byte buffer of the input's length whose entry
     * y * width + x is the slot for that pixel; the input is not written. The first
     * `random()` call throws when `nextInt` rejects its bounds, so the call fails exactly
     * when that happens and there is a pixel to process.
     */
    method StandardMinecraftDither(buffer: array<int>, width: int, table: seq<int8>, offsets: seq<int>)
      returns (data: array<int8>, ok: bool)
      requires width != 0 && |table| == TABLE_SIZE
      requires RangeNonEmpty() ==> IsStream(offsets, Processed(buffer.Length, width))
      ensures fresh(data) && data.Length == buffer.Length
      ensures ok <==> RangeNonEmpty() || Processed(buffer.Length, width) == 0
      ensures ok ==> forall i :: 0 <= i < Processed(buffer.Length, width) ==>
        data[i] == DitheredSlot(table, buffer[i], offsets[3 * i], offsets[3 * i + 1], offsets[3 * i + 2])
      ensures ok ==> forall i :: Processed(buffer.Length, width) <= i < data.Length ==> data[i] == 0
    {
      var length := buffer.Length;
      var height := JavaDiv(length, width);
      ghost var done := Processed(length, width);
      var pixels := buffer[..];
      data := ZeroedBuffer(length);
      if min >= max && height > 0 {
        // IllegalArgumentException from the first random()
        return data, false;
      }
      ok := true;
      assert height > 0 ==> RangeNonEmpty() && |offsets| >= 3 * done;
      var y := 0;
      var yIndex := 0;
      while y < height
        invariant height > 0 ==> width > 0 && 0 <= y <= height && done == height * width
        invariant height <= 0 ==> y == 0
        invariant yIndex == y * width && 0 <= yIndex <= done
        invariant forall i :: 0 <= i < yIndex ==>
          data[i] == DitheredSlot(table, pixels[i], offsets[3 * i], offsets[3 * i + 1], offsets[3 * i + 2])
        invariant forall i :: yIndex <= i < length ==> data[i] == 0
      {
        RowFits(y, height, width, done);
        SlotRow(pixels, width, table, offsets, yIndex, data);
        y := y + 1;
        yIndex := yIndex + width;
      }
      assert yIndex == done;
    }

    /** `Unpooled.buffer(length)`: a fresh zero-filled byte buffer. */
    static method ZeroedBuffer(length: nat) returns (data: array<int8>)
      ensures fresh(data) && data.Length == length
      ensures forall i :: 0 <= i < length ==> data[i] == 0
    {
      data := new int8[length](_ => 0);
    }

    /** One row of `standardMinecraftDither`: x runs over the row starting at `yIndex`. */
    method SlotRow(pixels: seq<int>, width: int, table: seq<int8>, offsets: seq<int>, yIndex: int, data: array<int8>)
      requires |table| == TABLE_SIZE && data.Length == |pixels|
      requires 0 <= yIndex && 0 < width && yIndex + width <= |pixels| && 3 * (yIndex + width) <= |offsets|
      modifies data
      ensures forall i :: 0 <= i < data.Length && !(yIndex <= i < yIndex + width) ==> data[i] == old(data[i])
      ensures forall i :: yIndex <= i < yIndex + width ==>
        data[i] == DitheredSlot(table, pixels[i], offsets[3 * i], offsets[3 * i + 1], offsets[3 * i + 2])
    {
      for x := 0 to width
        invariant forall i :: 0 <= i < data.Length && !(yIndex <= i < yIndex + x) ==> data[i] == old(data[i])
        invariant forall i :: yIndex <= i < yIndex + x ==>
          data[i] == DitheredSlot(table, pixels[i], offsets[3 * i], offsets[3 * i + 1], offsets[3 * i + 2])
      {
        var index := yIndex + x;
        var color := pixels[index];
        var c := Perturb(color, offsets[3 * index], offsets[3 * index + 1], offsets[3 * index + 2]);
        data[index] := BestColor(table, c.r, c.g, c.b);
      }
    }

    /**
     * `dither`: rewrites the buffer in place with the palette colour of each pixel's
     * slot; every index is visited once, so each new pixel depends only on its own
     * old value and its three offsets.
     */
    method Dither(buffer: array<int>, width: int, table: seq<int8>, rgbOf: int8 -> int, offsets: seq<int>)
      returns (ok: bool)
      requires width != 0 && |table| == TABLE_SIZE
      requires RangeNonEmpty() ==> IsStream(offsets, Processed(buffer.Length, width))
      modifies buffer
      ensures ok <==> RangeNonEmpty() || Processed(buffer.Length, width) == 0
      ensures !ok ==> buffer[..] == old(buffer[..])
      ensures ok ==> forall i :: 0 <= i < Processed(buffer.Length, width) ==>
        buffer[i] == rgbOf(DitheredSlot(table, old(buffer[i]), offsets[3 * i], offsets[3 * i + 1], offsets[3 * i + 2]))
      ensures ok ==> forall i :: Processed(buffer.Length, width) <= i < buffer.Length ==> buffer[i] == old(buffer[i])
    {
      var length := buffer.Length;
      var height := JavaDiv(length, width);
      ghost var done := Processed(length, width);
      if min >= max && height > 0 {
        // IllegalArgumentException from the first random(), before the first pixel is written
        return false;
      }
      ok := true;
      assert height > 0 ==> RangeNonEmpty() && |offsets| >= 3 * done;
      var y := 0;
      var yIndex := 0;
      while y < height
        invariant height > 0 ==> width > 0 && 0 <= y <= height && done == height * width
        invariant height <= 0 ==> y == 0
        invariant yIndex == y * width && 0 <= yIndex <= done
        invariant forall i :: 0 <= i < yIndex ==>
          buffer[i] == rgbOf(DitheredSlot(table, old(buffer[i]), offsets[3 * i], offsets[3 * i + 1], offsets[3 * i + 2]))
        invariant forall i :: yIndex <= i < length ==> buffer[i] == old(buffer[i])
      {
        RowFits(y, height, width, done);
        ColorRow(buffer, width, table, rgbOf, offsets, yIndex);
        y := y + 1;
        yIndex := yIndex + width;
      }
      assert yIndex == done;
    }

    /** One row of `dither`, rewritten in place. */
    method ColorRow(buffer: array<int>, width: int, table: seq<int8>, rgbOf: int8 -> int, offsets: seq<int>, yIndex: int)
      requires |table| == TABLE_SIZE
      requires 0 <= yIndex && 0 < width && yIndex + width <= buffer.Length && 3 * (yIndex + width) <= |offsets|
      modifies buffer
      ensures forall i :: 0 <= i < buffer.Length && !(yIndex <= i < yIndex + width) ==> buffer[i] == old(buffer[i])
      ensures forall i :: yIndex <= i < yIndex + width ==>
        buffer[i] == rgbOf(DitheredSlot(table, old(buffer[i]), offsets[3 * i], offsets[3 * i + 1], offsets[3 * i + 2]))
    {
      ghost var pixels := buffer[..];
      for x := 0 to width
        invariant forall i :: 0 <= i < buffer.Length && !(yIndex <= i < yIndex + x) ==> buffer[i] == pixels[i]
        invariant forall i :: yIndex <= i < yIndex + x ==>
          buffer[i] == rgbOf(DitheredSlot(table, pixels[i], offsets[3 * i], offsets[3 * i + 1], offsets[3 * i + 2]))
      {
        var index := yIndex + x;
        var color := buffer[index];
        var c := Perturb(color, offsets[3 * index], offsets[3 * index + 1], offsets[3 * index + 2]);
        buffer[index] := rgbOf(BestColor(table, c.r, c.g, c.b));
      }
    }
  }
}
