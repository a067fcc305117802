/**
 * The map-tile compositor shared by both packet interceptors (`displayMaps`): a
 * video frame of `videoWidth` x `vidHeight` pixels, placed at (xOff, yOff) on a
 * grid of `width` x `height` maps of 128 x 128 pixels, is cut into one map-update
 * descriptor per map it overlaps, each carrying the clipped rectangle's pixels.
 *
 * Each axis is handled the same way, so the window arithmetic is stated once per
 * axis (`Axis`) and the two-dimensional facts are products of the axis facts.
 */
module TileCompositor {
  import opened JavaTypes

  /** Pixels per map side. */
  const TILE: int := 128

  /** `(int) Math.ceil(n / 128.0)`: the least c with n <= 128 * c. */
  function CeilTile(n: int): (c: int)
    ensures 128 * (c - 1) < n <= 128 * c
  {
    (n + 127) / 128
  }

  /**
   * One axis of a placement: `tiles` maps across, and the video starting at pixel
   * `off` and spanning `len` pixels along this axis.
   */
  datatype Axis = Axis(tiles: int, off: int, len: int)

  /** `Math.max(0, off / 128)` with Java's truncating division. */
  function LoopMin(a: Axis): int
  {
    Max(0, JavaDiv(a.off, 128))
  }

  /** `Math.min(tiles, (int) Math.ceil((off + len) / 128.0))`. */
  function LoopMax(a: Axis): int
  {
    Min(a.tiles, CeilTile(a.off + a.len))
  }

  /** The loop visits map t. */
  predicate InLoop(a: Axis, t: int)
  {
    LoopMin(a) <= t < LoopMax(a)
  }

  /** The number of maps the loop visits. */
  function Count(a: Axis): nat
  {
    if LoopMax(a) > LoopMin(a) then LoopMax(a) - LoopMin(a) else 0
  }

  /** `topX = Math.max(0, xOff - relX)`: the first covered pixel inside map t. */
  function Top(a: Axis, t: int): int
  {
    Max(0, a.off - t * 128)
  }

  /** `xDiff = Math.min(128 - topX, negXOff - (relX + topX))`: the covered pixels of map t. */
  function Extent(a: Axis, t: int): int
  {
    Min(128 - Top(a, t), (a.off + a.len) - (t * 128 + Top(a, t)))
  }

  /**
   * Every visited map gets a rectangle that fits inside the map, non-empty when the
   * video is, and the rectangle lies inside both the video and the grid.
   */
  lemma TileBounds(a: Axis, t: int)
    requires a.len >= 0 && InLoop(a, t)
    ensures 0 <= Top(a, t) && 0 <= Extent(a, t) && Top(a, t) + Extent(a, t) <= 128
    ensures a.len >= 1 ==> 1 <= Extent(a, t)
    ensures a.off <= t * 128 + Top(a, t) && t * 128 + Top(a, t) + Extent(a, t) <= a.off + a.len
    ensures 0 <= t * 128 + Top(a, t) && t * 128 + Top(a, t) + Extent(a, t) <= a.tiles * 128
  {
    var c := CeilTile(a.off + a.len);
    assert t <= c - 1;
    MulMonoInt(t, c - 1, 128);
    if a.off > t * 128 {
      JavaDivNonneg(a.off, 128);
      assert a.off / 128 <= t;
      MulMonoInt(a.off / 128, t, 128);
      assert a.len >= 1 || a.off + a.len > t * 128;
    }
    MulMonoInt(t + 1, a.tiles, 128);
  }

  lemma MulMonoInt(a: int, b: int, k: int)
    requires a <= b && 0 <= k
    ensures a * k <= b * k
  {
    assert b * k - a * k == (b - a) * k;
  }

  /** The screen pixels the video covers along this axis: `[max(0, off), min(128 * tiles, off + len))`. */
  predicate Covered(a: Axis, p: int)
  {
    0 <= p < a.tiles * 128 && a.off <= p < a.off + a.len
  }

  /** Pixel p of the screen lies in map t at offset i inside t's rectangle. */
  predicate InRectangle(a: Axis, t: int, i: int)
  {
    InLoop(a, t) && Top(a, t) <= i < Top(a, t) + Extent(a, t)
  }

  /** Every covered pixel lies in the rectangle of the map `p / 128`. */
  lemma CoveredPixelIsInItsMap(a: Axis, p: int)
    requires a.len >= 0 && Covered(a, p)
    ensures InRectangle(a, p / 128, p % 128)
  {
    var t := p / 128;
    if a.off > 0 {
      JavaDivNonneg(a.off, 128);
      DivMono(a.off, p, 128);
    }
    assert t < a.tiles by {
      if t >= a.tiles {
        MulMonoInt(a.tiles, t, 128);
      }
    }
    var c := CeilTile(a.off + a.len);
    assert t < c by {
      if t >= c {
        MulMonoInt(c, t, 128);
      }
    }
  }

  lemma DivMono(a: int, b: int, d: int)
    requires 0 <= a <= b && d > 0
    ensures a / d <= b / d
  {
    if a / d > b / d {
      MulMonoInt(b / d + 1, a / d, d);
    }
  }

  /**
   * Conversely every rectangle pixel is a covered screen pixel, and the map it lies in
   * is determined by the pixel: the rectangles neither overlap nor leave gaps.
   */
  lemma RectanglePixelIsCovered(a: Axis, t: int, i: int)
    requires a.len >= 0 && InRectangle(a, t, i)
    ensures Covered(a, t * 128 + i)
    ensures (t * 128 + i) / 128 == t && (t * 128 + i) % 128 == i
  {
    TileBounds(a, t);
    DivMod(t, i, 128);
  }

  /**
   * The placement of one frame: map ids start at `firstMap` (the Java code's `map`), the grid
   * is `width` x `height` maps, and the video is `videoWidth` x `vidHeight` pixels placed
   * at (xOff, yOff).
   */
  datatype Placement = Placement(firstMap: int, width: int, height: int, videoWidth: int, vidHeight: int, xOff: int, yOff: int)

  /** The placements the compositor works on: a positive video width and a height of at least 0. */
  predicate PlacementOk(p: Placement)
  {
    p.videoWidth > 0 && p.vidHeight >= 0
  }

  /** The video's `vidHeight` rows of `videoWidth` pixels lie within a buffer of `capacity` bytes. */
  predicate FrameFits(p: Placement, capacity: int)
  {
    p.vidHeight * p.videoWidth <= capacity
  }

  /**
   * The placement `displayMaps` derives from its arguments, with `vidHeight =
   * rgb.capacity() / videoWidth`: the most full rows of `videoWidth` pixels that the
   * buffer holds.
   */
  function PlacementFor(firstMap: int, width: int, height: int, capacity: int, videoWidth: int, xOff: int, yOff: int): (p: Placement)
    requires videoWidth > 0 && capacity >= 0
    ensures PlacementOk(p) && FrameFits(p, capacity) && capacity < (p.vidHeight + 1) * videoWidth
    ensures p == Placement(firstMap, width, height, videoWidth, p.vidHeight, xOff, yOff)
  {
    JavaDivNonneg(capacity, videoWidth);
    Placement(firstMap, width, height, videoWidth, JavaDiv(capacity, videoWidth), xOff, yOff)
  }

  function XAxis(p: Placement): Axis
  {
    Axis(p.width, p.xOff, p.videoWidth)
  }

  function YAxis(p: Placement): Axis
  {
    Axis(p.height, p.yOff, p.vidHeight)
  }

  /** The visited maps. */
  predicate InGrid(p: Placement, x: int, y: int)
  {
    InLoop(XAxis(p), x) && InLoop(YAxis(p), y)
  }

  /**
   * The centring overload: `xOff = (128 * width - videoWidth) >> 1` and likewise for y,
   * where `>> 1` halves rounding down, so the margins left and right (top and bottom)
   * differ by at most one pixel.
   */
  function Centred(firstMap: int, width: int, height: int, capacity: int, videoWidth: int): (p: Placement)
    requires videoWidth > 0 && capacity >= 0
    ensures var q := PlacementFor(firstMap, width, height, capacity, videoWidth, p.xOff, p.yOff); p == q
    ensures var right := width * 128 - (p.xOff + videoWidth); p.xOff <= right <= p.xOff + 1
    ensures var right := height * 128 - (p.yOff + p.vidHeight); p.yOff <= right <= p.yOff + 1
  {
    var vidHeight := PlacementFor(firstMap, width, height, capacity, videoWidth, 0, 0).vidHeight;
    var pixW := width * 128;
    var pixH := height * 128;
    PlacementFor(firstMap, width, height, capacity, videoWidth, (pixW - videoWidth) / 2, (pixH - vidHeight) / 2)
  }

  /** A centred axis over a grid of at least zero maps: its loop range is never reversed. */
  lemma CentredAxisNotReversed(tiles: int, len: int)
    requires tiles >= 0 && len >= 0
    ensures var a := Axis(tiles, (tiles * 128 - len) / 2, len); LoopMin(a) <= LoopMax(a)
  {
    var off := (tiles * 128 - len) / 2;
    var a := Axis(tiles, off, len);
    assert off <= 64 * tiles && off + len >= 0;
    if off >= 0 {
      JavaDivNonneg(off, 128);
      assert JavaDiv(off, 128) <= tiles;
      assert JavaDiv(off, 128) <= CeilTile(off + len);
    }
  }

  /**
   * The centring `displayMaps` on a grid of at least zero maps each way never asks for a
   * negative number of slots, so it never throws NegativeArraySizeException.
   */
  lemma CentredAllocationNonNegative(firstMap: int, width: int, height: int, capacity: int, videoWidth: int)
    requires videoWidth > 0 && capacity >= 0 && width >= 0 && height >= 0
    ensures AllocatedSlots(Centred(firstMap, width, height, capacity, videoWidth)) >= 0
  {
    var p := Centred(firstMap, width, height, capacity, videoWidth);
    CentredAxisNotReversed(width, videoWidth);
    CentredAxisNotReversed(height, p.vidHeight);
    AllocationCases(p);
  }

  /** A grid of -1 x 1 maps under a 128 x 128 video: the centring overload asks for -1 slots. */
  lemma CentredNegativeWidthAllocation()
    ensures AllocatedSlots(Centred(0, -1, 1, 128 * 128, 128)) == -1
  {
    var p := Centred(0, -1, 1, 128 * 128, 128);
    JavaDivNonneg(128 * 128, 128);
    assert p.vidHeight == 128 && p.yOff == 0 && p.xOff == -128;
    assert JavaDiv(-128, 128) == -1;
  }

  /**
   * The clipped rectangle of a visited map: `relX = x << 7`, `relY = y << 7`, the first
   * covered pixel (topX, topY) inside the map and the covered extent (xDiff, yDiff).
   */
  datatype Rect = Rect(relX: int, relY: int, topX: int, topY: int, xDiff: int, yDiff: int)

  function RectOf(p: Placement, x: int, y: int): Rect
  {
    Rect(x * 128, y * 128, Top(XAxis(p), x), Top(YAxis(p), y), Extent(XAxis(p), x), Extent(YAxis(p), y))
  }

  /**
   * `(relY + iy - yOff) * videoWidth + relX + ix - xOff`: the frame-buffer index that the
   * pixel at iy = topY + row, ix = topX + col of the rectangle is read from.
   */
  function SourceIndex(r: Rect, videoWidth: int, xOff: int, yOff: int, row: int, col: int): int
  {
    (r.relY + r.topY + row - yOff) * videoWidth + r.relX + r.topX + col - xOff
  }

  /** Every pixel of the rectangle is read from inside a buffer of `capacity` bytes. */
  ghost predicate ReadsInside(r: Rect, videoWidth: int, xOff: int, yOff: int, capacity: int)
  {
    && r.xDiff >= 1 && r.yDiff >= 0
    && forall row, col :: 0 <= row < r.yDiff && 0 <= col < r.xDiff ==>
        0 <= SourceIndex(r, videoWidth, xOff, yOff, row, col) < capacity
  }

  /** Every read index of a visited map lies in `[0, capacity)`. */
  lemma VisitedRectReadsInside(p: Placement, capacity: int, x: int, y: int)
    requires PlacementOk(p) && FrameFits(p, capacity) && InGrid(p, x, y)
    ensures ReadsInside(RectOf(p, x, y), p.videoWidth, p.xOff, p.yOff, capacity)
  {
    var r := RectOf(p, x, y);
    TileBounds(XAxis(p), x);
    TileBounds(YAxis(p), y);
    RectInsideFrame(r, p.videoWidth, p.xOff, p.yOff, p.vidHeight, capacity);
  }

  /** A rectangle inside an h x w frame stored row-major in `cap >= h * w` bytes reads inside it. */
  lemma RectInsideFrame(r: Rect, w: int, xOff: int, yOff: int, h: int, cap: int)
    requires r.xDiff >= 1 && r.yDiff >= 0 && h * w <= cap
    requires xOff <= r.relX + r.topX && r.relX + r.topX + r.xDiff <= xOff + w
    requires yOff <= r.relY + r.topY && r.relY + r.topY + r.yDiff <= yOff + h
    ensures ReadsInside(r, w, xOff, yOff, cap)
  {
    forall row, col | 0 <= row < r.yDiff && 0 <= col < r.xDiff
      ensures 0 <= SourceIndex(r, w, xOff, yOff, row, col) < cap
    {
      var ay := r.relY + r.topY + row - yOff;
      var ax := r.relX + r.topX + col - xOff;
      RowMajorBound(ay, ax, h, w, cap);
    }
  }

  /** Row-major position (ay, ax) of an h x w block inside a buffer of `cap >= h * w`. */
  lemma RowMajorBound(ay: int, ax: int, h: int, w: int, cap: int)
    requires 0 <= ay < h && 0 <= ax < w && h * w <= cap
    ensures 0 <= ay * w + ax < cap
  {
    MulMonoInt(ay + 1, h, w);
    assert ay * w >= 0;
  }

  /** Row-major slot (qy, qx) of an ny x nx block decodes back to its row and column. */
  lemma RowMajorDecode(qy: int, qx: int, nx: int, ny: int)
    requires 0 <= qy < ny && 0 <= qx < nx
    ensures 0 <= qy * nx + qx < nx * ny
    ensures (qy * nx + qx) / nx == qy && (qy * nx + qx) % nx == qx
  {
    RowMajorBound(qy, qx, ny, nx, ny * nx);
    DivMod(qy, qx, nx);
  }

  /** Every slot below nx * ny is some row-major (k / nx, k % nx). */
  lemma RowMajorOnto(k: int, nx: int, ny: int)
    requires nx >= 0 && ny >= 0 && 0 <= k < nx * ny
    ensures nx > 0 && 0 <= k / nx < ny && 0 <= k % nx < nx && (k / nx) * nx + k % nx == k
  {
    RowBelow(k, nx, ny);
  }

  /** `v < xDiff * yDiff` puts v's row below yDiff. */
  lemma RowBelow(v: int, xDiff: int, yDiff: int)
    requires 0 <= v < xDiff * yDiff && xDiff > 0
    ensures 0 <= v / xDiff < yDiff
  {
    if v / xDiff >= yDiff {
      MulMonoInt(yDiff, v / xDiff, xDiff);
    }
  }

  /** Byte v of the rectangle's data: row `v / xDiff`, column `v % xDiff`. */
  function ByteAt(rgb: seq<int8>, r: Rect, videoWidth: int, xOff: int, yOff: int, v: int): int8
    requires ReadsInside(r, videoWidth, xOff, yOff, |rgb|) && 0 <= v < r.xDiff * r.yDiff
  {
    RowBelow(v, r.xDiff, r.yDiff);
    rgb[SourceIndex(r, videoWidth, xOff, yOff, v / r.xDiff, v % r.xDiff)]
  }

  /** The `mapData` of a rectangle: `xDiff * yDiff` bytes, row-major. */
  function RectData(rgb: seq<int8>, r: Rect, videoWidth: int, xOff: int, yOff: int): (d: seq<int8>)
    requires ReadsInside(r, videoWidth, xOff, yOff, |rgb|)
    ensures |d| == r.xDiff * r.yDiff
  {
    assert r.xDiff * r.yDiff >= 0;
    seq(r.xDiff * r.yDiff, v requires 0 <= v < r.xDiff * r.yDiff => ByteAt(rgb, r, videoWidth, xOff, yOff, v))
  }

  /** Byte `row * xDiff + col` of the data is the rectangle pixel at (row, col). */
  lemma ByteAtRow(rgb: seq<int8>, r: Rect, videoWidth: int, xOff: int, yOff: int, row: int, col: int)
    requires ReadsInside(r, videoWidth, xOff, yOff, |rgb|)
    requires 0 <= row < r.yDiff && 0 <= col < r.xDiff
    ensures 0 <= row * r.xDiff + col < r.xDiff * r.yDiff
    ensures ByteAt(rgb, r, videoWidth, xOff, yOff, row * r.xDiff + col) == rgb[SourceIndex(r, videoWidth, xOff, yOff, row, col)]
    ensures RectData(rgb, r, videoWidth, xOff, yOff)[row * r.xDiff + col] == rgb[SourceIndex(r, videoWidth, xOff, yOff, row, col)]
  {
    RowMajorDecode(row, col, r.xDiff, r.yDiff);
  }

  /**
   * A map-update descriptor: the target map id, scale, locked flag, and the patch
   * `(topX, topY, xDiff, yDiff, data)`.
   */
  datatype MapPacket = MapPacket(mapId: int, scale: int8, locked: bool,
                                 topX: int, topY: int, xDiff: int, yDiff: int, data: seq<int8>)

  /** `map + width * y + x`. */
  function MapId(p: Placement, x: int, y: int): int
  {
    p.firstMap + p.width * y + x
  }

  /** The descriptor the compositor emits for map (x, y): scale 0, unlocked, no icons. */
  function TilePacket(rgb: seq<int8>, p: Placement, x: int, y: int): MapPacket
    requires PlacementOk(p) && FrameFits(p, |rgb|) && InGrid(p, x, y)
  {
    VisitedRectReadsInside(p, |rgb|, x, y);
    var r := RectOf(p, x, y);
    MapPacket(MapId(p, x, y), 0, false, r.topX, r.topY, r.xDiff, r.yDiff, RectData(rgb, r, p.videoWidth, p.xOff, p.yOff))
  }

  /** Maps inside the grid horizontally get distinct ids. */
  lemma MapIdsDistinct(p: Placement, x1: int, y1: int, x2: int, y2: int)
    requires 0 <= x1 < p.width && 0 <= x2 < p.width
    requires MapId(p, x1, y1) == MapId(p, x2, y2)
    ensures x1 == x2 && y1 == y2
  {
    DivMod(y1, x1, p.width);
    DivMod(y2, x2, p.width);
  }

  /** Visited maps lie inside the grid, so their ids are distinct. */
  lemma VisitedMapsInsideGrid(p: Placement, x: int, y: int)
    requires PlacementOk(p) && InGrid(p, x, y)
    ensures 0 <= x < p.width && 0 <= y < p.height
  {
  }

  /**
   * Pixel (px, py) of the screen under the video is carried by the descriptor of map
   * (px / 128, py / 128), in the byte at its row and column inside the rectangle, and
   * that byte is frame pixel `(py - yOff) * videoWidth + px - xOff`.
   */
  lemma ScreenPixelInItsTile(rgb: seq<int8>, p: Placement, px: int, py: int)
    requires PlacementOk(p) && FrameFits(p, |rgb|)
    requires Covered(XAxis(p), px) && Covered(YAxis(p), py)
    ensures InRectangle(XAxis(p), px / 128, px % 128) && InRectangle(YAxis(p), py / 128, py % 128)
    ensures 0 <= (py - p.yOff) * p.videoWidth + px - p.xOff < |rgb|
    ensures var pkt := TilePacket(rgb, p, px / 128, py / 128);
      var v := (py % 128 - pkt.topY) * pkt.xDiff + (px % 128 - pkt.topX);
      0 <= v < |pkt.data| && pkt.data[v] == rgb[(py - p.yOff) * p.videoWidth + px - p.xOff]
  {
    CoveredPixelIsInItsMap(XAxis(p), px);
    CoveredPixelIsInItsMap(YAxis(p), py);
    var x, y := px / 128, py / 128;
    VisitedRectReadsInside(p, |rgb|, x, y);
    var r := RectOf(p, x, y);
    var col, row := px % 128 - r.topX, py % 128 - r.topY;
    ByteAtRow(rgb, r, p.videoWidth, p.xOff, p.yOff, row, col);
    RowMajorBound(py - p.yOff, px - p.xOff, p.vidHeight, p.videoWidth, |rgb|);
    assert SourceIndex(r, p.videoWidth, p.xOff, p.yOff, row, col) == (py - p.yOff) * p.videoWidth + px - p.xOff;
  }

  /** Where row y of the visited maps starts in the packet array; every visited row fits in it. */
  function RowStart(p: Placement, y: int): (k: int)
    ensures InLoop(YAxis(p), y) ==> 0 <= k && k + Count(XAxis(p)) <= Count(XAxis(p)) * Count(YAxis(p))
  {
    if InLoop(YAxis(p), y) then
      RowFits(y - LoopMin(YAxis(p)), Count(XAxis(p)), Count(YAxis(p)));
      (y - LoopMin(YAxis(p))) * Count(XAxis(p))
    else (y - LoopMin(YAxis(p))) * Count(XAxis(p))
  }

  /** The next row starts where this one ends. */
  lemma RowStartNext(p: Placement, y: int)
    ensures RowStart(p, y + 1) == RowStart(p, y) + Count(XAxis(p))
  {
    var i := y - LoopMin(YAxis(p));
    assert (i + 1) * Count(XAxis(p)) == i * Count(XAxis(p)) + Count(XAxis(p));
  }

  /** Earlier rows end before later rows start. */
  lemma RowStartMono(p: Placement, y1: int, y2: int)
    requires PlacementOk(p) && y1 < y2
    ensures RowStart(p, y1) + Count(XAxis(p)) <= RowStart(p, y2)
  {
    MulMonoInt(y1 - LoopMin(YAxis(p)) + 1, y2 - LoopMin(YAxis(p)), Count(XAxis(p)));
  }

  /** Row i of an ny x nx row-major block occupies `[i * nx, i * nx + nx)` inside `[0, nx * ny)`. */
  lemma RowFits(i: int, nx: int, ny: int)
    requires 0 <= i < ny && 0 <= nx
    ensures 0 <= i * nx && i * nx + nx <= nx * ny
  {
    MulMonoInt(i + 1, ny, nx);
  }

  /** Where the descriptor of map (x, y) lands in the packet array: `arrIndex`, row-major. */
  function Slot(p: Placement, x: int, y: int): (k: int)
    ensures InGrid(p, x, y) ==> RowStart(p, y) <= k < RowStart(p, y) + Count(XAxis(p))
    ensures InGrid(p, x, y) ==> 0 <= k < Count(XAxis(p)) * Count(YAxis(p))
  {
    RowStart(p, y) + (x - LoopMin(XAxis(p)))
  }

  /** The slots of the visited maps are exactly 0 to `Count(x) * Count(y) - 1`, each once. */
  lemma SlotDecode(p: Placement, x: int, y: int)
    requires PlacementOk(p) && InGrid(p, x, y)
    ensures 0 <= Slot(p, x, y) < Count(XAxis(p)) * Count(YAxis(p))
    ensures Slot(p, x, y) / Count(XAxis(p)) == y - LoopMin(YAxis(p))
    ensures Slot(p, x, y) % Count(XAxis(p)) == x - LoopMin(XAxis(p))
  {
    var nx, ny := Count(XAxis(p)), Count(YAxis(p));
    RowMajorDecode(y - LoopMin(YAxis(p)), x - LoopMin(XAxis(p)), nx, ny);
  }

  /** Every slot of the packet array belongs to a visited map. */
  lemma SlotOnto(p: Placement, k: int)
    requires PlacementOk(p) && 0 <= k < Count(XAxis(p)) * Count(YAxis(p))
    ensures var x, y := LoopMin(XAxis(p)) + k % Count(XAxis(p)), LoopMin(YAxis(p)) + k / Count(XAxis(p));
      InGrid(p, x, y) && Slot(p, x, y) == k
  {
    var nx, ny := Count(XAxis(p)), Count(YAxis(p));
    RowMajorOnto(k, nx, ny);
  }

  /**
   * The packet array as the Java code allocates it: `(xLoopMax - xLoopMin) * (yLoopMax - yLoopMin)`
   * slots, a product of two differences either of which can be negative.
   */
  function AllocatedSlots(p: Placement): int
  {
    (LoopMax(XAxis(p)) - LoopMin(XAxis(p))) * (LoopMax(YAxis(p)) - LoopMin(YAxis(p)))
  }

  /**
   * The allocated size is negative exactly when one loop range is reversed and the other
   * visits at least one map; when it is not negative it is the number of visited maps,
   * or both ranges are reversed and no map is visited at all.
   */
  lemma AllocationCases(p: Placement)
    ensures AllocatedSlots(p) < 0 <==>
      (LoopMax(XAxis(p)) < LoopMin(XAxis(p)) && Count(YAxis(p)) > 0) ||
      (Count(XAxis(p)) > 0 && LoopMax(YAxis(p)) < LoopMin(YAxis(p)))
    ensures AllocatedSlots(p) >= 0 ==>
      AllocatedSlots(p) == Count(XAxis(p)) * Count(YAxis(p)) ||
      (LoopMax(XAxis(p)) < LoopMin(XAxis(p)) && LoopMax(YAxis(p)) < LoopMin(YAxis(p)) &&
       Count(XAxis(p)) * Count(YAxis(p)) == 0)
  {
    var dx := LoopMax(XAxis(p)) - LoopMin(XAxis(p));
    var dy := LoopMax(YAxis(p)) - LoopMin(YAxis(p));
    assert AllocatedSlots(p) == dx * dy;
    if dx < 0 && dy > 0 {
      assert dx * dy < 0 by { MulMonoInt(dx, -1, dy); }
    } else if dx > 0 && dy < 0 {
      assert dx * dy < 0 by { MulMonoInt(dy, -1, dx); }
    } else if dx < 0 && dy < 0 {
      assert dx * dy > 0 by { assert dx * dy == (-dx) * (-dy); }
    }
  }

  /** Whenever both loop ranges are non-empty or empty by meeting, allocation and count agree. */
  lemma AllocationMatchesCount(p: Placement)
    requires LoopMax(XAxis(p)) >= LoopMin(XAxis(p)) && LoopMax(YAxis(p)) >= LoopMin(YAxis(p))
    ensures AllocatedSlots(p) == Count(XAxis(p)) * Count(YAxis(p))
  {
  }

  /**
   * A one-map grid with the video placed right of it: the x loop range is empty the
   * wrong way round, and the Java code asks for an array of -1 slots
   * (NegativeArraySizeException) where no descriptor is due.
   */
  lemma OffGridAllocationIsNegative()
    ensures var p := Placement(0, 1, 1, 128, 128, 300, 0);
      PlacementOk(p) && AllocatedSlots(p) == -1 && Count(XAxis(p)) * Count(YAxis(p)) == 0
  {
    var p := Placement(0, 1, 1, 128, 128, 300, 0);
    assert JavaDiv(300, 128) == 2;
  }

  /**
   * With the video right of and below a one-map grid both ranges are reversed: the
   * product is positive, so the array gets a slot that no descriptor fills (its null
   * is then handed to every connection).
   */
  lemma OffGridAllocationHasEmptySlot()
    ensures var p := Placement(0, 1, 1, 128, 128, 300, 300);
      PlacementOk(p) && AllocatedSlots(p) == 1 && Count(XAxis(p)) * Count(YAxis(p)) == 0
  {
    var p := Placement(0, 1, 1, 128, 128, 300, 300);
    assert JavaDiv(300, 128) == 2;
  }

  /**
   * The inner pixel loops for one map: `mapData` gets `xDiff * yDiff` bytes, byte
   * `(iy - topY) * xDiff + ix - topX` copied from the frame buffer.
   */
  method CopyTile(rgb: seq<int8>, r: Rect, videoWidth: int, xOff: int, yOff: int) returns (mapData: array<int8>)
    requires ReadsInside(r, videoWidth, xOff, yOff, |rgb|)
    ensures fresh(mapData)
    ensures mapData[..] == RectData(rgb, r, videoWidth, xOff, yOff)
  {
    var yPixMax := r.yDiff + r.topY;
    mapData := new int8[r.xDiff * r.yDiff];
    for iy := r.topY to yPixMax
      invariant forall v :: 0 <= v < (iy - r.topY) * r.xDiff ==>
        v < r.xDiff * r.yDiff && mapData[v] == ByteAt(rgb, r, videoWidth, xOff, yOff, v)
    {
      MulMonoInt(iy - r.topY + 1, r.yDiff, r.xDiff);
      CopyTileRow(rgb, r, videoWidth, xOff, yOff, iy - r.topY, mapData);
    }
    assert (yPixMax - r.topY) * r.xDiff == r.xDiff * r.yDiff;
  }

  /** One `iy` row of CopyTile: bytes `row * xDiff` up to `row * xDiff + xDiff - 1`. */
  method CopyTileRow(rgb: seq<int8>, r: Rect, videoWidth: int, xOff: int, yOff: int, row: int, mapData: array<int8>)
    requires ReadsInside(r, videoWidth, xOff, yOff, |rgb|)
    requires 0 <= row < r.yDiff && mapData.Length == r.xDiff * r.yDiff
    modifies mapData
    ensures forall v :: 0 <= v < mapData.Length && !(row * r.xDiff <= v < row * r.xDiff + r.xDiff) ==>
      mapData[v] == old(mapData[v])
    ensures forall v :: row * r.xDiff <= v < row * r.xDiff + r.xDiff ==>
      v < r.xDiff * r.yDiff && mapData[v] == ByteAt(rgb, r, videoWidth, xOff, yOff, v)
  {
    var iy := r.topY + row;
    var yPos := r.relY + iy;
    var indexY := (yPos - yOff) * videoWidth;
    var xPixMax := r.xDiff + r.topX;
    var base := row * r.xDiff;
    for ix := r.topX to xPixMax
      invariant forall v :: 0 <= v < mapData.Length && !(base <= v < base + (ix - r.topX)) ==> mapData[v] == old(mapData[v])
      invariant forall v :: base <= v < base + (ix - r.topX) ==>
        v < r.xDiff * r.yDiff && mapData[v] == ByteAt(rgb, r, videoWidth, xOff, yOff, v)
    {
      ByteAtRow(rgb, r, videoWidth, xOff, yOff, row, ix - r.topX);
      assert indexY + r.relX + ix - xOff == SourceIndex(r, videoWidth, xOff, yOff, row, ix - r.topX);
      mapData[base + ix - r.topX] := rgb[indexY + r.relX + ix - xOff];
    }
  }

  /** A placeholder for the packet array's unfilled (null) slots. */
  const NO_PACKET: MapPacket := MapPacket(0, 0, false, 0, 0, 0, 0, [])

  /** `new PacketPlayOutMap[n]`: n slots, each null. */
  method NewPacketArray(n: nat) returns (packets: array<MapPacket>)
    ensures fresh(packets) && packets.Length == n
    ensures forall k :: 0 <= k < n ==> packets[k] == NO_PACKET
  {
    packets := new MapPacket[n](_ => NO_PACKET);
  }

  /**
   * The tile loops of `displayMaps`: one descriptor per visited map, stored row-major
   * through `arrIndex`, in an array of `AllocatedSlots(p)` slots as the Java code allocates
   * it. Slots no descriptor reaches stay null.
   */
  method ComposeTiles(rgb: seq<int8>, p: Placement) returns (packets: array<MapPacket>)
    requires PlacementOk(p) && FrameFits(p, |rgb|) && AllocatedSlots(p) >= 0
    ensures fresh(packets)
    ensures packets[..] == PacketSlots(rgb, p)
  {
    var yLoopMin, yLoopMax := LoopMin(YAxis(p)), LoopMax(YAxis(p));
    var nx := Count(XAxis(p));
    AllocationCases(p);
    packets := NewPacketArray(AllocatedSlots(p));
    var arrIndex := 0;
    var y := yLoopMin;
    while y < yLoopMax
      invariant yLoopMin <= y && (yLoopMin < yLoopMax ==> y <= yLoopMax)
      invariant yLoopMin < yLoopMax ==> packets.Length == nx * Count(YAxis(p))
      invariant arrIndex == RowStart(p, y)
      invariant forall x', y' :: InGrid(p, x', y') && y' < y ==> packets[Slot(p, x', y')] == TilePacket(rgb, p, x', y')
      invariant forall k :: nx * Count(YAxis(p)) <= k < packets.Length ==> packets[k] == NO_PACKET
    {
      ghost var before := packets[..];
      ComposeRow(rgb, p, y, arrIndex, packets);
      NextRowComposed(rgb, p, y, before, packets[..]);
      RowStartNext(p, y);
      arrIndex := arrIndex + nx;
      y := y + 1;
    }
    ComposedIsPacketSlots(rgb, p, packets[..]);
  }

  /**
   * The packet array as the Java code fills it: the descriptors of the visited maps in
   * slot order, then a null for each slot left over. Whenever the video overlaps the grid
   * this is exactly `Tiles`; when it overlaps no map every slot is null.
   */
  function PacketSlots(rgb: seq<int8>, p: Placement): (s: seq<MapPacket>)
    requires PlacementOk(p) && FrameFits(p, |rgb|) && AllocatedSlots(p) >= 0
    ensures |s| == AllocatedSlots(p)
    ensures Count(XAxis(p)) * Count(YAxis(p)) > 0 ==> s == Tiles(rgb, p)
    ensures Count(XAxis(p)) * Count(YAxis(p)) == 0 ==> forall k :: 0 <= k < |s| ==> s[k] == NO_PACKET
  {
    AllocationCases(p);
    var ts := Tiles(rgb, p);
    ts + seq(AllocatedSlots(p) - |ts|, _ => NO_PACKET)
  }

  /** An allocated array holding each visited map's descriptor at its slot and nulls after them is `PacketSlots`. */
  lemma ComposedIsPacketSlots(rgb: seq<int8>, p: Placement, s: seq<MapPacket>)
    requires PlacementOk(p) && FrameFits(p, |rgb|) && AllocatedSlots(p) >= 0
    requires |s| == AllocatedSlots(p)
    requires forall x, y :: InGrid(p, x, y) ==> s[Slot(p, x, y)] == TilePacket(rgb, p, x, y)
    requires forall k :: Count(XAxis(p)) * Count(YAxis(p)) <= k < |s| ==> s[k] == NO_PACKET
    ensures s == PacketSlots(rgb, p)
  {
    AllocationCases(p);
    var n := Count(XAxis(p)) * Count(YAxis(p));
    ComposedIsTiles(rgb, p, s[..n]);
    assert s == s[..n] + s[n..];
  }

  /** The packet array in slot order: slot k holds the descriptor of the map it decodes to. */
  function Tiles(rgb: seq<int8>, p: Placement): (ts: seq<MapPacket>)
    requires PlacementOk(p) && FrameFits(p, |rgb|)
    ensures |ts| == Count(XAxis(p)) * Count(YAxis(p))
  {
    var nx, n := Count(XAxis(p)), Count(XAxis(p)) * Count(YAxis(p));
    seq(n, k requires 0 <= k < n =>
      SlotOnto(p, k);
      TilePacket(rgb, p, LoopMin(XAxis(p)) + k % nx, LoopMin(YAxis(p)) + k / nx))
  }

  /** Each visited map's descriptor sits at its own slot of `Tiles`. */
  lemma TilesAtSlot(rgb: seq<int8>, p: Placement, x: int, y: int)
    requires PlacementOk(p) && FrameFits(p, |rgb|) && InGrid(p, x, y)
    ensures 0 <= Slot(p, x, y) < |Tiles(rgb, p)|
    ensures Tiles(rgb, p)[Slot(p, x, y)] == TilePacket(rgb, p, x, y)
  {
    SlotDecode(p, x, y);
  }

  /** An array holding every visited map's descriptor at its slot is `Tiles`. */
  lemma ComposedIsTiles(rgb: seq<int8>, p: Placement, s: seq<MapPacket>)
    requires PlacementOk(p) && FrameFits(p, |rgb|)
    requires |s| == Count(XAxis(p)) * Count(YAxis(p))
    requires forall x, y :: InGrid(p, x, y) ==> s[Slot(p, x, y)] == TilePacket(rgb, p, x, y)
    ensures s == Tiles(rgb, p)
  {
    var ts := Tiles(rgb, p);
    forall k | 0 <= k < |s|
      ensures s[k] == ts[k]
    {
      SlotOnto(p, k);
    }
  }

  /** Composing row y on top of rows above it yields every row up to y. */
  lemma NextRowComposed(rgb: seq<int8>, p: Placement, y: int, before: seq<MapPacket>, after: seq<MapPacket>)
    requires PlacementOk(p) && FrameFits(p, |rgb|) && InLoop(YAxis(p), y)
    requires |before| == |after| == Count(XAxis(p)) * Count(YAxis(p))
    requires forall x', y' :: InGrid(p, x', y') && y' < y ==> before[Slot(p, x', y')] == TilePacket(rgb, p, x', y')
    requires forall k :: 0 <= k < |after| && !(RowStart(p, y) <= k < RowStart(p, y) + Count(XAxis(p))) ==>
      after[k] == before[k]
    requires RowStart(p, y) + Count(XAxis(p)) <= |after|
    requires forall x :: InLoop(XAxis(p), x) ==>
      after[RowStart(p, y) + (x - LoopMin(XAxis(p)))] == TilePacket(rgb, p, x, y)
    ensures forall x', y' :: InGrid(p, x', y') && y' <= y ==> after[Slot(p, x', y')] == TilePacket(rgb, p, x', y')
  {
    forall x', y' | InGrid(p, x', y') && y' <= y
      ensures after[Slot(p, x', y')] == TilePacket(rgb, p, x', y')
    {
      if y' < y {
        RowStartMono(p, y', y);
      }
    }
  }

  /** The body of the x loop: the clipped rectangle of map (x, y), its pixels and its descriptor. */
  method BuildPacket(rgb: seq<int8>, p: Placement, x: int, y: int) returns (packet: MapPacket)
    requires PlacementOk(p) && FrameFits(p, |rgb|) && InGrid(p, x, y)
    ensures packet == TilePacket(rgb, p, x, y)
  {
    VisitedRectReadsInside(p, |rgb|, x, y);
    var r := RectOf(p, x, y);
    var mapData := CopyTile(rgb, r, p.videoWidth, p.xOff, p.yOff);
    var mapId := p.firstMap + p.width * y + x;
    packet := MapPacket(mapId, 0, false, r.topX, r.topY, r.xDiff, r.yDiff, mapData[..]);
  }

  /** One y row of the tile loops: the descriptors of maps xLoopMin to xLoopMax - 1. */
  method ComposeRow(rgb: seq<int8>, p: Placement, y: int, arrIndex: int, packets: array<MapPacket>)
    requires PlacementOk(p) && FrameFits(p, |rgb|) && InLoop(YAxis(p), y)
    requires 0 <= arrIndex && arrIndex + Count(XAxis(p)) <= packets.Length
    modifies packets
    ensures forall k :: 0 <= k < packets.Length && !(arrIndex <= k < arrIndex + Count(XAxis(p))) ==>
      packets[k] == old(packets[k])
    ensures forall x :: InLoop(XAxis(p), x) ==>
      packets[arrIndex + (x - LoopMin(XAxis(p)))] == TilePacket(rgb, p, x, y)
  {
    var xLoopMin, xLoopMax := LoopMin(XAxis(p)), LoopMax(XAxis(p));
    var x := xLoopMin;
    var index := arrIndex;
    while x < xLoopMax
      invariant x == xLoopMin || xLoopMin < x <= xLoopMax
      invariant index == arrIndex + (x - xLoopMin) <= arrIndex + Count(XAxis(p))
      invariant forall k :: 0 <= k < packets.Length && !(arrIndex <= k < index) ==> packets[k] == old(packets[k])
      invariant forall x' :: xLoopMin <= x' < x ==> packets[arrIndex + (x' - xLoopMin)] == TilePacket(rgb, p, x', y)
    {
      var packet := BuildPacket(rgb, p, x, y);
      packets[index] := packet;
      index := index + 1;
      x := x + 1;
    }
  }
}
