/**
 * The colour-quantisation table builder: probes the map palette, then fills the
 * 128x128x128 slot table COLOR_MAP and the resolved-colour table FULL_COLOR_MAP.
 *
 * The fork/join tasks LoadRed, LoadGreen and LoadBlue become sequential methods
 * of the same names; each writes a disjoint range, so their order does not matter.
 * The colour distance is the Java code's float formula multiplied by 512, which is
 * exact integer arithmetic (see DistanceIsScaledFormula).
 */
module StaticDither {
  import opened Wrappers
  import opened JavaTypes

  /** 7-bit channels: the table has SIDE^3 entries. */
  const SIDE: int := 128
  /** Entries per red slab, `1 << 14`. */
  const SLAB: int := 16384
  const TABLE_SIZE: int := 2097152
  /** The nearest-colour scan skips the reserved slots 0 to 3. */
  const FIRST_SLOT: int := 4
  /** The palette is probed at indices 0 to 255. */
  const MAX_PROBES: int := 256
  /** `Float.MAX_VALUE` (exactly (2 - 2^-23) * 2^127) on the x512 distance scale. */
  const MAX_DISTANCE: int := 512 * 340282366920938463463374607431768211456 - 512 * 20282409603651670423947251286016
  /** Largest x512 distance between two colours with 8-bit channels. */
  const DISTANCE_BOUND: int := 5116 * 65025

  /** An RGB triple. */
  datatype Rgb = Rgb(r: int, g: int, b: int)

  predicate InRange(c: Rgb)
  {
    0 <= c.r < 256 && 0 <= c.g < 256 && 0 <= c.b < 256
  }

  /** `col >> 16 & 0xFF` on a packed ARGB int (arithmetic shift, so floor division). */
  function Red(col: int): (v: int)
    ensures 0 <= v < 256
  {
    (col / 0x1_0000) % 256
  }

  /** `col >> 8 & 0xFF`. */
  function Green(col: int): (v: int)
    ensures 0 <= v < 256
  {
    (col / 0x100) % 256
  }

  /** `col & 0xFF`. */
  function Blue(col: int): (v: int)
    ensures 0 <= v < 256
  {
    col % 256
  }

  function Channels(col: int): (c: Rgb)
    ensures InRange(c)
  {
    Rgb(Red(col), Green(col), Blue(col))
  }

  /**
   * The red-mean weighted squared distance between probe `c` and palette colour `col`,
   * scaled by 512: the weights 2 + avg/256, 4 and 2 + (255 - avg)/256 become
   * 1024 + r + r2, 2048 and 1534 - r - r2.
   */
  function Distance(c: Rgb, col: int): int
  {
    var r2, g2, b2 := Red(col), Green(col), Blue(col);
    var dr, dg, db := c.r - r2, c.g - g2, c.b - b2;
    (1024 + c.r + r2) * (dr * dr) + 2048 * (dg * dg) + (1534 - c.r - r2) * (db * db)
  }

  /** The distance as the Java code writes it, in exact real arithmetic (no float rounding). */
  ghost function RealDistance(c: Rgb, col: int): real
  {
    var r2, g2, b2 := Red(col), Green(col), Blue(col);
    var redAvg := (c.r + r2) as real * 0.5;
    var dr, dg, db := (c.r - r2) as real, (c.g - g2) as real, (c.b - b2) as real;
    var weightRed := 2.0 + redAvg * (1.0 / 256.0);
    var weightGreen := 4.0;
    var weightBlue := 2.0 + (255.0 - redAvg) * (1.0 / 256.0);
    weightRed * dr * dr + weightGreen * dg * dg + weightBlue * db * db
  }

  /** The integer metric is exactly 512 times the Java code's formula. */
  lemma DistanceIsScaledFormula(c: Rgb, col: int)
    ensures Distance(c, col) as real == 512.0 * RealDistance(c, col)
  {
    var r2, g2, b2 := Red(col), Green(col), Blue(col);
    var dr, dg, db := c.r - r2, c.g - g2, c.b - b2;
    var redAvg := (c.r + r2) as real * 0.5;
    assert 512.0 * ((2.0 + redAvg * (1.0 / 256.0)) * dr as real * dr as real)
        == (1024 + c.r + r2) as real * (dr * dr) as real;
    assert 512.0 * (4.0 * dg as real * dg as real) == 2048.0 * (dg * dg) as real;
    assert 512.0 * ((2.0 + (255.0 - redAvg) * (1.0 / 256.0)) * db as real * db as real)
        == (1534 - c.r - r2) as real * (db * db) as real;
  }

  /** A positive weight times a square is zero exactly when the difference is zero. */
  lemma WeightedSquare(w: int, d: int)
    requires w > 0
    ensures w * (d * d) >= 0
    ensures w * (d * d) == 0 <==> d == 0
  {
    if d != 0 {
      assert d * d > 0;
      MulAtLeast(w, d * d);
    }
  }

  /**
   * All three weights are positive on 8-bit channels, so the distance is never
   * negative and is zero exactly when the palette colour equals the probe.
   */
  lemma DistanceZeroIffEqual(c: Rgb, col: int)
    requires InRange(c)
    ensures Distance(c, col) >= 0
    ensures Distance(c, col) == 0 <==> c == Channels(col)
  {
    var r2, g2, b2 := Red(col), Green(col), Blue(col);
    WeightedSquare(1024 + c.r + r2, c.r - r2);
    WeightedSquare(2048, c.g - g2);
    WeightedSquare(1534 - c.r - r2, c.b - b2);
  }

  lemma WeightedSquareBound(w: int, d: int, wMax: int)
    requires 0 < w <= wMax && -255 <= d <= 255
    ensures w * (d * d) <= wMax * 65025
  {
    assert d * d <= 65025 by {
      if d < 0 {
        assert d * d == (-d) * (-d);
        MulMono(-d, 255, -d);
        MulMono(-d, 255, 255);
      } else {
        MulMono(d, 255, d);
        MulMono(d, 255, 255);
      }
    }
    assert d * d >= 0;
    MulMono(w, wMax, d * d);
    MulMono(d * d, 65025, wMax);
    assert wMax * (d * d) == (d * d) * wMax;
  }

  lemma MulMono(a: int, b: int, k: int)
    requires 0 <= a <= b && 0 <= k
    ensures a * k <= b * k
  {
    assert b * k - a * k == (b - a) * k;
  }

  /** Distances stay far below `Float.MAX_VALUE`, so the first scanned slot is always taken. */
  lemma DistanceBounded(c: Rgb, col: int)
    requires InRange(c)
    ensures 0 <= Distance(c, col) <= DISTANCE_BOUND < MAX_DISTANCE
  {
    var r2, g2, b2 := Red(col), Green(col), Blue(col);
    DistanceZeroIffEqual(c, col);
    WeightedSquareBound(1024 + c.r + r2, c.r - r2, 1534);
    WeightedSquareBound(2048, c.g - g2, 2048);
    WeightedSquareBound(1534 - c.r - r2, c.b - b2, 1534);
  }

  /**
   * The slot LoadBlue settles on after scanning slots FIRST_SLOT to n - 1: the first
   * one is always taken, and a later one replaces it only when strictly closer.
   */
  function NearestIn(p: seq<int>, c: Rgb, n: nat): (v: nat)
    requires n <= |p|
    ensures n <= FIRST_SLOT ==> v == 0
    ensures n > FIRST_SLOT ==> FIRST_SLOT <= v < n
    decreases n
  {
    if n <= FIRST_SLOT then 0
    else if n == FIRST_SLOT + 1 then FIRST_SLOT
    else
      var v := NearestIn(p, c, n - 1);
      if Distance(c, p[n - 1]) < Distance(c, p[v]) then n - 1 else v
  }

  /** The slot chosen for probe `c` from the whole palette. */
  function Nearest(p: seq<int>, c: Rgb): nat
  {
    NearestIn(p, c, |p|)
  }

  /**
   * `v` is the lowest slot in [FIRST_SLOT, n) with the smallest distance to `c`,
   * or 0 when that range is empty.
   */
  ghost predicate IsFirstArgmin(p: seq<int>, c: Rgb, n: nat, v: int)
    requires n <= |p|
  {
    if n <= FIRST_SLOT then v == 0
    else
      && FIRST_SLOT <= v < n
      && (forall i :: FIRST_SLOT <= i < n ==> Distance(c, p[v]) <= Distance(c, p[i]))
      && (forall i :: FIRST_SLOT <= i < v ==> Distance(c, p[v]) < Distance(c, p[i]))
  }

  /** The scan finds the first minimiser: ties keep the earliest slot. */
  lemma {:induction false} NearestInIsFirstArgmin(p: seq<int>, c: Rgb, n: nat)
    requires n <= |p|
    ensures IsFirstArgmin(p, c, n, NearestIn(p, c, n))
    decreases n
  {
    if n > FIRST_SLOT + 1 {
      NearestInIsFirstArgmin(p, c, n - 1);
    }
  }

  /** The first minimiser is unique, so the table does not depend on scheduling. */
  lemma FirstArgminUnique(p: seq<int>, c: Rgb, n: nat, v: int, w: int)
    requires n <= |p|
    requires IsFirstArgmin(p, c, n, v) && IsFirstArgmin(p, c, n, w)
    ensures v == w
  {
    if n > FIRST_SLOT {
      assert Distance(c, p[v]) <= Distance(c, p[w]);
      assert Distance(c, p[w]) <= Distance(c, p[v]);
    }
  }

  /** The chosen slot is below the palette length, hence below 256 when the palette is. */
  lemma NearestInPalette(p: seq<int>, c: Rgb)
    requires 1 <= |p| <= MAX_PROBES
    ensures Nearest(p, c) < |p|
    ensures UnsignedByte(ToByte(Nearest(p, c))) == Nearest(p, c)
  {
    ByteRoundTrip(Nearest(p, c));
  }

  /** `LoadBlue.compute`: the nearest palette slot for the 8-bit colour (r, g, b). */
  method LoadBlue(palette: seq<int>, r: int, g: int, b: int) returns (slot: int8)
    requires |palette| <= MAX_PROBES
    requires InRange(Rgb(r, g, b))
    ensures slot == ToByte(Nearest(palette, Rgb(r, g, b)))
    ensures IsFirstArgmin(palette, Rgb(r, g, b), |palette|, UnsignedByte(slot))
  {
    var c := Rgb(r, g, b);
    var val := 0;
    var bestDistance := MAX_DISTANCE;
    var i := FIRST_SLOT;
    while i < |palette|
      invariant |palette| <= FIRST_SLOT ==> i == FIRST_SLOT && val == 0
      invariant |palette| > FIRST_SLOT ==> FIRST_SLOT <= i <= |palette| && val == NearestIn(palette, c, i)
      invariant i == FIRST_SLOT ==> bestDistance == MAX_DISTANCE
      invariant i > FIRST_SLOT ==> bestDistance == Distance(c, palette[val])
    {
      var col := palette[i];
      var distance := Distance(c, col);
      DistanceBounded(c, col);
      if distance < bestDistance {
        bestDistance := distance;
        val := i;
      }
      i := i + 1;
    }
    NearestInIsFirstArgmin(palette, c, |palette|);
    ByteRoundTrip(val);
    slot := ToByte(val);
  }

  /** `LoadGreen.compute`: one blue row, entry k for blue channel 2k. */
  method LoadGreen(palette: seq<int>, r: int, g: int) returns (matches: array<int8>)
    requires |palette| <= MAX_PROBES
    requires 0 <= r < 256 && 0 <= g < 256
    ensures fresh(matches) && matches.Length == SIDE
    ensures forall k :: 0 <= k < SIDE ==> matches[k] == ToByte(Nearest(palette, Rgb(r, g, 2 * k)))
  {
    matches := new int8[SIDE];
    for i := 0 to SIDE
      invariant forall k :: 0 <= k < i ==> matches[k] == ToByte(Nearest(palette, Rgb(r, g, 2 * k)))
    {
      matches[i] := LoadBlue(palette, r, g, 2 * i);
    }
  }

  /** What LoadRed stores at offset si of the slab for red channel r. */
  function SlabEntry(p: seq<int>, r: int, si: int): int8
  {
    ToByte(Nearest(p, Rgb(r, 2 * (si / SIDE), 2 * (si % SIDE))))
  }

  /** `LoadRed.compute`: one red slab, entry `(j << 7) + k` for green 2j and blue 2k. */
  method LoadRed(palette: seq<int>, r: int) returns (vals: array<int8>)
    requires |palette| <= MAX_PROBES
    requires 0 <= r < 256
    ensures fresh(vals) && vals.Length == SLAB
    ensures forall si :: 0 <= si < SLAB ==> vals[si] == SlabEntry(palette, r, si)
  {
    vals := new int8[SLAB];
    for i := 0 to SIDE
      invariant forall si :: 0 <= si < i * SIDE ==> vals[si] == SlabEntry(palette, r, si)
    {
      var sub := LoadGreen(palette, r, 2 * i);
      CopyRow(palette, r, i, sub, vals);
    }
  }

  /** `System.arraycopy(sub, 0, vals, i << 7, 128)` in LoadRed's join loop. */
  method CopyRow(palette: seq<int>, r: int, i: int, sub: array<int8>, vals: array<int8>)
    requires 0 <= i < SIDE && sub != vals
    requires sub.Length == SIDE && vals.Length == SLAB
    requires forall k :: 0 <= k < SIDE ==> sub[k] == ToByte(Nearest(palette, Rgb(r, 2 * i, 2 * k)))
    modifies vals
    ensures forall si :: 0 <= si < SLAB && !(i * SIDE <= si < i * SIDE + SIDE) ==> vals[si] == old(vals[si])
    ensures forall si :: i * SIDE <= si < i * SIDE + SIDE ==> vals[si] == SlabEntry(palette, r, si)
  {
    var index := i * SIDE;
    MulMono(i, 127, SIDE);
    for k := 0 to SIDE
      invariant forall si :: 0 <= si < SLAB && !(index <= si < index + k) ==> vals[si] == old(vals[si])
      invariant forall si :: index <= si < index + k ==> vals[si] == SlabEntry(palette, r, si)
    {
      DivMod(i, k, SIDE);
      vals[index + k] := sub[k];
    }
  }

  /** The 8-bit probe colour behind table entry n. */
  function ProbeOf(n: int): Rgb
  {
    Rgb(2 * (n / SLAB), 2 * ((n / SIDE) % SIDE), 2 * (n % SIDE))
  }

  /**
   * Index layout: for 7-bit i, j, k the entry `(i << 14) + (j << 7) + k` lies in the
   * table and stands for the colour (2i, 2j, 2k); distinct triples get distinct entries.
   */
  lemma TableIndexLayout(i: int, j: int, k: int)
    requires 0 <= i < SIDE && 0 <= j < SIDE && 0 <= k < SIDE
    ensures 0 <= i * SLAB + j * SIDE + k < TABLE_SIZE
    ensures ProbeOf(i * SLAB + j * SIDE + k) == Rgb(2 * i, 2 * j, 2 * k)
  {
    var n := i * SLAB + j * SIDE + k;
    assert n == (i * SIDE + j) * SIDE + k;
    DivMod(i * SIDE + j, k, SIDE);
    DivMod(i, j, SIDE);
    assert n == i * SLAB + (j * SIDE + k);
    DivMod(i, j * SIDE + k, SLAB);
    MulMono(i, 127, SLAB);
    MulMono(j, 127, SIDE);
  }

  /**
   * The join loop writes entry `(i << 14) + si` for slab i and offset si: every entry
   * of the table is reached by exactly one such pair, namely (n / 16384, n % 16384).
   */
  lemma JoinWritesEachEntryOnce(n: int, i: int, si: int)
    requires 0 <= n < TABLE_SIZE
    requires 0 <= i < SIDE && 0 <= si < SLAB
    ensures 0 <= n / SLAB < SIDE && n == (n / SLAB) * SLAB + n % SLAB
    ensures i * SLAB + si == n <==> i == n / SLAB && si == n % SLAB
  {
    DivMod(i, si, SLAB);
  }

  /** The entries of a red slab, read back through the full-table layout. */
  lemma SlabEntryProbe(i: int, si: int)
    requires 0 <= i < SIDE && 0 <= si < SLAB
    ensures 0 <= i * SLAB + si < TABLE_SIZE
    ensures ProbeOf(i * SLAB + si) == Rgb(2 * i, 2 * (si / SIDE), 2 * (si % SIDE))
  {
    DivMod(si / SIDE, si % SIDE, SIDE);
    assert si == (si / SIDE) * SIDE + si % SIDE;
    TableIndexLayout(i, si / SIDE, si % SIDE);
  }

  /**
   * The probe loop's result: the colours fetched at indices 0, 1, ... before the first
   * index whose lookup fails, at most 256 of them; `largest` is that index minus 1,
   * or stays 0 when no probe fails.
   */
  ghost predicate Probed(fetch: int8 -> Option<int>, colors: seq<int>, largest: int)
  {
    && |colors| <= MAX_PROBES
    && (forall j :: 0 <= j < |colors| ==> fetch(ToByte(j)) == Some(colors[j]))
    && (|colors| < MAX_PROBES ==> fetch(ToByte(|colors|)).None?)
    && largest == (if |colors| < MAX_PROBES then |colors| - 1 else 0)
  }

  /** The probe loop of the static initialiser: `getColor((byte) i)` until it throws. */
  method ProbePalette(fetch: int8 -> Option<int>) returns (colors: seq<int>, largest: int)
    ensures Probed(fetch, colors, largest)
  {
    colors := [];
    largest := 0;
    var i := 0;
    while i < MAX_PROBES
      invariant 0 <= i <= MAX_PROBES && |colors| == i && largest == 0
      invariant forall j :: 0 <= j < i ==> fetch(ToByte(j)) == Some(colors[j])
    {
      match fetch(ToByte(i)) {
        case Some(color) =>
          colors := colors + [color];
        case None =>
          largest := i - 1;
          return;
      }
      i := i + 1;
    }
  }

  /** The class's static state once initialised. */
  datatype Tables = Tables(palette: seq<int>, largest: int, colorMap: array<int8>, fullColorMap: array<int>)

  /** Why the static initialiser can fail. */
  datatype InitError =
    /** The first probe already fails; `PALETTE[0] = 0` then indexes an empty array. */
    EmptyPalette

  /** What the initialised COLOR_MAP holds at entry n. */
  function TableEntry(p: seq<int>, n: int): int8
  {
    ToByte(Nearest(p, ProbeOf(n)))
  }

  /** What the initialised tables hold for a given palette. */
  ghost predicate TablesFor(t: Tables)
    reads t.colorMap, t.fullColorMap
  {
    && 1 <= |t.palette| <= MAX_PROBES
    && t.colorMap.Length == TABLE_SIZE && t.fullColorMap.Length == TABLE_SIZE
    && (forall n :: 0 <= n < TABLE_SIZE ==> t.colorMap[n] == TableEntry(t.palette, n))
    && (forall n :: 0 <= n < TABLE_SIZE ==> t.fullColorMap[n] == FullEntry(t.palette, n))
  }

  /** What the initialised FULL_COLOR_MAP holds at entry n: the colour of the chosen slot. */
  function FullEntry(p: seq<int>, n: int): int
    requires 1 <= |p|
  {
    p[Nearest(p, ProbeOf(n))]
  }

  /** `FULL_COLOR_MAP[n] == PALETTE[Byte.toUnsignedInt(COLOR_MAP[n])]` for every entry. */
  lemma FullColorMapResolvesSlot(t: Tables, n: int)
    requires TablesFor(t) && 0 <= n < TABLE_SIZE
    ensures UnsignedByte(t.colorMap[n]) < |t.palette|
    ensures t.fullColorMap[n] == t.palette[UnsignedByte(t.colorMap[n])]
  {
    NearestInPalette(t.palette, ProbeOf(n));
  }

  /**
   * The static initialiser: probe the palette, clear slot 0, then fill both tables
   * slab by slab (the join loop over the LoadRed tasks).
   */
  method Initialize(fetch: int8 -> Option<int>) returns (res: Result<Tables, InitError>)
    ensures res.Err? <==> fetch(ToByte(0)).None?
    ensures res.Ok? ==>
      && fresh(res.value.colorMap) && fresh(res.value.fullColorMap)
      && TablesFor(res.value)
      && (exists colors :: Probed(fetch, colors, res.value.largest)
            && |colors| >= 1 && res.value.palette == colors[0 := 0])
  {
    var colors, largest := ProbePalette(fetch);
    if |colors| == 0 {
      return Err(EmptyPalette);
    }
    var palette := colors[0 := 0];
    var colorMap := new int8[TABLE_SIZE];
    var fullColorMap := new int[TABLE_SIZE];
    for i := 0 to SIDE
      invariant forall n :: 0 <= n < i * SLAB ==> colorMap[n] == TableEntry(palette, n)
      invariant forall n :: 0 <= n < i * SLAB ==> fullColorMap[n] == FullEntry(palette, n)
    {
      MulMono(i, 127, SLAB);
      var sub := LoadRed(palette, 2 * i);
      JoinSlab(palette, i, sub, colorMap, fullColorMap);
    }
    res := Ok(Tables(palette, largest, colorMap, fullColorMap));
  }

  /** Slab entry si of red index i is table entry `(i << 14) + si`, and its colour is the slot's. */
  lemma SlabEntryIsTableEntry(p: seq<int>, i: int, si: int)
    requires 1 <= |p| <= MAX_PROBES && 0 <= i < SIDE && 0 <= si < SLAB
    ensures 0 <= i * SLAB + si < TABLE_SIZE
    ensures SlabEntry(p, 2 * i, si) == TableEntry(p, i * SLAB + si)
    ensures UnsignedByte(SlabEntry(p, 2 * i, si)) < |p|
    ensures FullEntry(p, i * SLAB + si) == p[UnsignedByte(SlabEntry(p, 2 * i, si))]
  {
    SlabEntryProbe(i, si);
    NearestInPalette(p, ProbeOf(i * SLAB + si));
  }

  /** One iteration of the join loop: copy slab i into both tables. */
  method JoinSlab(palette: seq<int>, i: int, sub: array<int8>, colorMap: array<int8>, fullColorMap: array<int>)
    requires 1 <= |palette| <= MAX_PROBES && 0 <= i < SIDE && sub != colorMap
    requires sub.Length == SLAB && colorMap.Length == TABLE_SIZE && fullColorMap.Length == TABLE_SIZE
    requires forall si :: 0 <= si < SLAB ==> sub[si] == SlabEntry(palette, 2 * i, si)
    modifies colorMap, fullColorMap
    ensures forall n :: 0 <= n < TABLE_SIZE && !(i * SLAB <= n < i * SLAB + SLAB) ==>
      colorMap[n] == old(colorMap[n])
    ensures forall n :: 0 <= n < TABLE_SIZE && !(i * SLAB <= n < i * SLAB + SLAB) ==>
      fullColorMap[n] == old(fullColorMap[n])
    ensures forall n :: i * SLAB <= n < i * SLAB + SLAB ==> colorMap[n] == TableEntry(palette, n)
    ensures forall n :: i * SLAB <= n < i * SLAB + SLAB ==> fullColorMap[n] == FullEntry(palette, n)
  {
    CopySlots(palette, i, sub, colorMap);
    CopyColors(palette, i, sub, fullColorMap);
  }

  /** `System.arraycopy(sub, 0, COLOR_MAP, i << 14, sub.length)`. */
  method CopySlots(palette: seq<int>, i: int, sub: array<int8>, colorMap: array<int8>)
    requires 1 <= |palette| <= MAX_PROBES && 0 <= i < SIDE && sub != colorMap
    requires sub.Length == SLAB && colorMap.Length == TABLE_SIZE
    requires forall si :: 0 <= si < SLAB ==> sub[si] == SlabEntry(palette, 2 * i, si)
    modifies colorMap
    ensures forall n :: 0 <= n < TABLE_SIZE && !(i * SLAB <= n < i * SLAB + SLAB) ==>
      colorMap[n] == old(colorMap[n])
    ensures forall n :: i * SLAB <= n < i * SLAB + SLAB ==> colorMap[n] == TableEntry(palette, n)
  {
    var ci := i * SLAB;
    MulMono(i, 127, SLAB);
    for si := 0 to SLAB
      invariant forall n :: 0 <= n < TABLE_SIZE && !(ci <= n < ci + si) ==> colorMap[n] == old(colorMap[n])
      invariant forall n :: ci <= n < ci + si ==> colorMap[n] == TableEntry(palette, n)
    {
      SlabEntryIsTableEntry(palette, i, si);
      colorMap[ci + si] := sub[si];
    }
  }

  /** The row's `FULL_COLOR_MAP[index + si] = PALETTE[Byte.toUnsignedInt(sub[si])]` writes. */
  method CopyColors(palette: seq<int>, i: int, sub: array<int8>, fullColorMap: array<int>)
    requires 1 <= |palette| <= MAX_PROBES && 0 <= i < SIDE
    requires sub.Length == SLAB && fullColorMap.Length == TABLE_SIZE
    requires forall si :: 0 <= si < SLAB ==> sub[si] == SlabEntry(palette, 2 * i, si)
    modifies fullColorMap
    ensures forall n :: 0 <= n < TABLE_SIZE && !(i * SLAB <= n < i * SLAB + SLAB) ==>
      fullColorMap[n] == old(fullColorMap[n])
    ensures forall n :: i * SLAB <= n < i * SLAB + SLAB ==> fullColorMap[n] == FullEntry(palette, n)
  {
    var ci := i * SLAB;
    MulMono(i, 127, SLAB);
    for si := 0 to SLAB
      invariant forall n :: 0 <= n < TABLE_SIZE && !(ci <= n < ci + si) ==>
        fullColorMap[n] == old(fullColorMap[n])
      invariant forall n :: ci <= n < ci + si ==> fullColorMap[n] == FullEntry(palette, n)
    {
      SlabEntryIsTableEntry(palette, i, si);
      fullColorMap[ci + si] := palette[UnsignedByte(sub[si])];
    }
  }

  /** The scan only looks at slots from FIRST_SLOT on, so palettes that agree there choose alike. */
  lemma {:induction false} NearestInIgnoresLowSlots(p: seq<int>, q: seq<int>, c: Rgb, n: nat)
    requires n <= |p| == |q|
    requires forall j :: FIRST_SLOT <= j < |p| ==> p[j] == q[j]
    ensures NearestIn(p, c, n) == NearestIn(q, c, n)
    decreases n
  {
    if n > FIRST_SLOT + 1 {
      NearestInIgnoresLowSlots(p, q, c, n - 1);
    }
  }

  /**
   * `PALETTE[0] = 0` never changes which slot COLOR_MAP holds, since the scan skips slot 0.
   * FULL_COLOR_MAP is unchanged too when the palette has more than FIRST_SLOT colours; with
   * fewer every entry is slot 0, whose colour is now the cleared 0.
   */
  lemma SlotZeroClearing(colors: seq<int>, n: int)
    requires |colors| >= 1
    ensures TableEntry(colors[0 := 0], n) == TableEntry(colors, n)
    ensures |colors| > FIRST_SLOT ==> FullEntry(colors[0 := 0], n) == FullEntry(colors, n)
    ensures |colors| <= FIRST_SLOT ==> FullEntry(colors[0 := 0], n) == 0
  {
    NearestInIgnoresLowSlots(colors[0 := 0], colors, ProbeOf(n), |colors|);
  }
}
