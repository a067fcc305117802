# EzMediaCore core, modelled in Dafny

EzMediaCore (formerly MinecraftMediaLibrary) plays video inside Minecraft. It turns each frame into the
palette of map colours, cuts the frame into 128 x 128 map tiles, and sends the tiles, chat lines and
entity name lines to the players' connections. This project models the parts of the library that do that
work, plus the small value types and helpers around them:

- **StaticDither** (`static_dither.dfy`): builds the static lookup tables. It probes the map palette colour
  by colour, clears palette slot 0, and then fills the 2^21-entry `COLOR_MAP` and `FULL_COLOR_MAP` through
  the LoadRed / LoadGreen / LoadBlue tasks. LoadBlue (`static_dither.dfy`) picks the first palette slot
  from 4 on that minimises the weighted "red-mean" colour distance. That distance is stated exactly, in
  integers scaled by 512.
- **RandomDithering** (`random_dither.dfy`): the random dither. It adds an offset in `[-weight, weight]`
  to each channel in int arithmetic, clamps, and looks the result up by its packed index
  `r>>1<<14 | g>>1<<7 | b>>1`. `standardMinecraftDither` returns a new byte buffer. `dither` rewrites the
  int buffer in place. Both throw on the first pixel when `nextInt(-weight, weight + 1)` gets an empty
  range: a negative weight, or `Integer.MAX_VALUE`, where `weight + 1` wraps.
- **TileCompositor** (`tile_compositor.dfy`): the tile loops of `displayMaps`, which the 1.16 and 1.18
  interceptors share. It covers the loop bounds, the rectangle each map covers, the row-major copy of its
  bytes, and the packet array filled through `arrIndex`. The array has the size the Java code computes,
  so a video off the grid either throws `NegativeArraySizeException` or leaves null slots (see Findings).
- **PacketDelivery**, **InterceptorV1_16**, **InterceptorV1_18** (`packet_delivery.dfy`,
  `interceptor_v1_16.dfy`, `interceptor_v1_18.dfy`): the packet interceptors. They cover:
  - the connection table;
  - the `lastUpdated` rate limit;
  - the map-id registry;
  - the delivery loops, including which of them dereference a missing connection;
  - the packed block position of the debug marker;
  - the colour run-length rule of chat lines and the rows of entity name lines.

  Every packet handed to a connection is a record appended to a log. A call that throws in the Java code
  ends with a flag set.
- **Xoroshiro** (`xoroshiro.dfy`): the Xoroshiro128+ generator, on 64-bit words, including its
  `nextBytes` as written and a corrected `nextBytes` that uses whole 64-bit draws (see Findings).
- **JarRelocator** (`jar_relocator.dfy`): `JarRelocatorTask`, which rewrites a jar. It skips
  `META-INF/INDEX.LIST` and directory entries, recreates the parent directories of each entry once,
  copies resources once per mapped name, and writes relocated classes.
- **ResourcepackListener** (`resourcepack_listener.dfy`): `ForcefulResourcepackListener`. It offers a
  resource pack to a set of players and drops each player once they answer. It unregisters when nobody is
  left, or when its timer fires.
- **Extraction**, **MapImages**, **Mrl** (`extraction_setting.dfy`, `map_image.dfy`, `mrl_input.dfy`):
  - `ExtractionSetting`, with its checking constructor, unchecked setters and builder;
  - `MapImage`, with its configuration round trip through Bukkit's `NumberConversions.toInt` and
    `String.valueOf`;
  - `MrlInput`, with its factories, `toString`, `equals` and `hashCode`.

  The Java library behaviour these rely on is modelled in **JavaFiles** (`java_files.dfy`: Unix path
  normalisation, `getAbsolutePath`) and **JavaTypes** (`java_types.dfy`: 32-bit wrap-around, truncating
  division, byte casts).

How the Java code is represented:

- A Java class whose fields change becomes a Dafny `class`, and its loops become methods with loop
  invariants. Each such method is proved against a function of its inputs and old state. The properties
  the code promises are then proved about those functions.
- The clock (`System.currentTimeMillis`) is a parameter `now`.
- The palette lookup (`MinecraftMapPalette.getColor`) is a parameter `fetch`.
- The random offsets are an input sequence `offsets`.
- The seed hash (MurmurHash3) is a parameter `hash`.
- The ASM class rewriting is a parameter `relocate`, and the name remapper is a parameter `remap`.
- The online players are a set given to the listener.
- Hash-set and hash-map iteration orders are explicit sequences.

## Model

| member | source | states |
|---|---|---|
| StaticDither.Channels | MinecraftMediaLibrary/src/main/java/com/github/pulsebeat02/minecraftmedialibrary/video/dither/StaticDitherInitialization.java:153-155 | `col >> 16 & 0xFF`, `col >> 8 & 0xFF` and `col & 0xFF` are channels in 0..255 |
| StaticDither.DistanceIsScaledFormula | MinecraftMediaLibrary/src/main/java/com/github/pulsebeat02/minecraftmedialibrary/video/dither/StaticDitherInitialization.java:156-163 | the integer distance is exactly 512 times the red-mean weighted distance computed over the reals |
| StaticDither.DistanceZeroIffEqual | MinecraftMediaLibrary/src/main/java/com/github/pulsebeat02/minecraftmedialibrary/video/dither/StaticDitherInitialization.java:156-163 | the distance is non-negative, and zero exactly when the palette colour has the probed channels |
| StaticDither.DistanceBounded | MinecraftMediaLibrary/src/main/java/com/github/pulsebeat02/minecraftmedialibrary/video/dither/StaticDitherInitialization.java:147-148 | every distance is below the scaled initial best distance, so the first candidate slot is always taken |
| StaticDither.NearestIn | MinecraftMediaLibrary/src/main/java/com/github/pulsebeat02/minecraftmedialibrary/video/dither/StaticDitherInitialization.java:147-168 | with no slot from 4 on the result is 0; otherwise it is a slot in 4..n-1 |
| StaticDither.NearestInIsFirstArgmin | MinecraftMediaLibrary/src/main/java/com/github/pulsebeat02/minecraftmedialibrary/video/dither/StaticDitherInitialization.java:151-168 | the strict `<` scan returns the first slot of least distance among slots 4.. |
| StaticDither.FirstArgminUnique | MinecraftMediaLibrary/src/main/java/com/github/pulsebeat02/minecraftmedialibrary/video/dither/StaticDitherInitialization.java:164-167 | the first slot of least distance is unique, so the scan's result is determined |
| StaticDither.NearestInPalette | MinecraftMediaLibrary/src/main/java/com/github/pulsebeat02/minecraftmedialibrary/video/dither/StaticDitherInitialization.java:169 | the chosen slot indexes the palette and survives the `(byte)` cast and `Byte.toUnsignedInt` |
| StaticDither.LoadBlue | MinecraftMediaLibrary/src/main/java/com/github/pulsebeat02/minecraftmedialibrary/video/dither/StaticDitherInitialization.java:146-170 | the returned byte is the first nearest slot for (r, g, b), cast to a byte |
| StaticDither.LoadGreen | MinecraftMediaLibrary/src/main/java/com/github/pulsebeat02/minecraftmedialibrary/video/dither/StaticDitherInitialization.java:116-128 | a fresh 128-entry array whose entry k is the nearest slot for (r, g, 2k) |
| StaticDither.LoadRed | MinecraftMediaLibrary/src/main/java/com/github/pulsebeat02/minecraftmedialibrary/video/dither/StaticDitherInitialization.java:84-98 | a fresh 16384-entry slab whose entry si is the nearest slot for (r, 2(si/128), 2(si%128)) |
| StaticDither.CopyRow | MinecraftMediaLibrary/src/main/java/com/github/pulsebeat02/minecraftmedialibrary/video/dither/StaticDitherInitialization.java:92-96 | `System.arraycopy` writes green row i into slab positions i*128.. and leaves the rest unchanged |
| StaticDither.TableIndexLayout | MinecraftMediaLibrary/src/main/java/com/github/pulsebeat02/minecraftmedialibrary/video/dither/StaticDitherInitialization.java:37-47 | entry i*16384 + j*128 + k of the table lies in range and holds the probe (2i, 2j, 2k) |
| StaticDither.JoinWritesEachEntryOnce | MinecraftMediaLibrary/src/main/java/com/github/pulsebeat02/minecraftmedialibrary/video/dither/StaticDitherInitialization.java:42-48 | each table index n is written by exactly one (i, si) of the join loops |
| StaticDither.SlabEntryProbe | MinecraftMediaLibrary/src/main/java/com/github/pulsebeat02/minecraftmedialibrary/video/dither/StaticDitherInitialization.java:44-46 | slab entry si of red task i is the table entry for the probe (2i, 2(si/128), 2(si%128)) |
| StaticDither.ProbePalette | MinecraftMediaLibrary/src/main/java/com/github/pulsebeat02/minecraftmedialibrary/video/dither/StaticDitherInitialization.java:18-34 | the colours collected until the first failing `getColor`, with `largest` = that index - 1 |
| StaticDither.FullColorMapResolvesSlot | MinecraftMediaLibrary/src/main/java/com/github/pulsebeat02/minecraftmedialibrary/video/dither/StaticDitherInitialization.java:47 | every `FULL_COLOR_MAP` entry is the palette colour of the `COLOR_MAP` slot at that index, and that slot is in range |
| StaticDither.Initialize | MinecraftMediaLibrary/src/main/java/com/github/pulsebeat02/minecraftmedialibrary/video/dither/StaticDitherInitialization.java:17-52 | fails exactly when colour 0 cannot be fetched (`PALETTE[0] = 0` on an empty array); otherwise the tables hold the nearest slot and its colour for every probe, over the probed palette with slot 0 cleared |
| StaticDither.SlabEntryIsTableEntry | MinecraftMediaLibrary/src/main/java/com/github/pulsebeat02/minecraftmedialibrary/video/dither/StaticDitherInitialization.java:42-48 | what red task i computed for slab position si is the table entry at i*16384 + si, and its colour is `PALETTE[slot]` |
| StaticDither.JoinSlab | MinecraftMediaLibrary/src/main/java/com/github/pulsebeat02/minecraftmedialibrary/video/dither/StaticDitherInitialization.java:42-48 | joining slab i fills both tables on i*16384.. with their table entries and changes nothing else |
| StaticDither.CopySlots | MinecraftMediaLibrary/src/main/java/com/github/pulsebeat02/minecraftmedialibrary/video/dither/StaticDitherInitialization.java:45-46 | `COLOR_MAP` on slab i gets the slab's slots and the rest is unchanged |
| StaticDither.CopyColors | MinecraftMediaLibrary/src/main/java/com/github/pulsebeat02/minecraftmedialibrary/video/dither/StaticDitherInitialization.java:45-47 | `FULL_COLOR_MAP` on slab i gets the slots' palette colours and the rest is unchanged |
| StaticDither.NearestInIgnoresLowSlots | MinecraftMediaLibrary/src/main/java/com/github/pulsebeat02/minecraftmedialibrary/video/dither/StaticDitherInitialization.java:151-168 | the scan reads only slots 4 on: two palettes of one length that agree there choose the same slot |
| StaticDither.SlotZeroClearing | MinecraftMediaLibrary/src/main/java/com/github/pulsebeat02/minecraftmedialibrary/video/dither/StaticDitherInitialization.java:35-48 | `PALETTE[0] = 0` leaves every `COLOR_MAP` entry unchanged, and every `FULL_COLOR_MAP` entry too for a palette of more than 4 colours; with at most 4 every entry is slot 0, whose colour is the cleared 0 |
| RandomDithering.Clamp | main/src/main/java/io/github/pulsebeat02/ezmediacore/dither/algorithm/random/RandomDither.java:84-86 | the conditional clamps to 0..255: above gives 255, below gives 0, in range is kept |
| RandomDithering.PackIndexLayout | main/src/main/java/io/github/pulsebeat02/ezmediacore/dither/algorithm/random/RandomDither.java:126-128 | `r>>1<<14 \| g>>1<<7 \| b>>1` is (r/2)*16384 + (g/2)*128 + b/2, in range, and its probe is the colour with each channel rounded down to even |
| RandomDithering.BestColorReadsPackIndex | main/src/main/java/io/github/pulsebeat02/ezmediacore/dither/algorithm/random/RandomDither.java:126-128 | `getBestColor` reads `COLOR_MAP` at the index `red >> 1 << 14 \| green >> 1 << 7 \| blue >> 1`, which lies in the table |
| RandomDithering.BestColorIsNearest | main/src/main/java/io/github/pulsebeat02/ezmediacore/dither/algorithm/random/RandomDither.java:126-128 | over the static table, `getBestColor` is the nearest palette slot of the even-rounded colour |
| RandomDithering.ChannelSumIsIntAddition | main/src/main/java/io/github/pulsebeat02/ezmediacore/dither/algorithm/random/RandomDither.java:84-86 | `r += random()` is int addition: past `Integer.MAX_VALUE` it wraps, below that it is the plain sum |
| RandomDithering.ChannelSumWrapsToBlack | main/src/main/java/io/github/pulsebeat02/ezmediacore/dither/algorithm/random/RandomDither.java:84 | channel 255 plus offset 2^31 - 2 wraps negative and clamps to 0, not 255 |
| RandomDithering.Perturb | main/src/main/java/io/github/pulsebeat02/ezmediacore/dither/algorithm/random/RandomDither.java:81-86 | the perturbed and clamped channels stay in 0..255 |
| RandomDithering.ZeroOffsetsArePlainLookup | main/src/main/java/io/github/pulsebeat02/ezmediacore/dither/algorithm/random/RandomDither.java:81-87 | with zero offsets a pixel gets the plain table lookup of its own colour |
| RandomDithering.Processed | main/src/main/java/io/github/pulsebeat02/ezmediacore/dither/algorithm/random/RandomDither.java:73-79 | the loops touch `(length / width) * width` pixels: a multiple of the width, fewer than a row short, none for a negative width |
| RandomDithering.RowFits | main/src/main/java/io/github/pulsebeat02/ezmediacore/dither/algorithm/random/RandomDither.java:76-80 | row y of the loop indexes inside the buffer |
| RandomDithering.RandomDither.constructor | main/src/main/java/io/github/pulsebeat02/ezmediacore/dither/algorithm/random/RandomDither.java:59-64 | keeps the weight |
| RandomDithering.RandomDither.RangeNonEmpty | main/src/main/java/io/github/pulsebeat02/ezmediacore/dither/algorithm/random/RandomDither.java:59-64 | `-weight < weight + 1` in int arithmetic exactly for weights 0 to `Integer.MAX_VALUE - 1` and for `Integer.MIN_VALUE` |
| RandomDithering.RandomDither.IsOffset | main/src/main/java/io/github/pulsebeat02/ezmediacore/dither/algorithm/random/RandomDither.java:122-124 | `nextInt(min, max)` with min = -weight, max = weight + 1 draws exactly the offsets in [-weight, weight] for weights 0 to `Integer.MAX_VALUE - 1`, only `Integer.MIN_VALUE` for that weight, and nothing for the others |
| RandomDithering.RandomDither.WeightZeroIsPlainLookup | main/src/main/java/io/github/pulsebeat02/ezmediacore/dither/algorithm/random/RandomDither.java:59-64 | at weight 0 every admissible offset is 0 and the dither is the plain lookup |
| RandomDithering.RandomDither.StandardMinecraftDither | main/src/main/java/io/github/pulsebeat02/ezmediacore/dither/algorithm/random/RandomDither.java:70-91 | throws exactly when `nextInt` refuses its bounds and some pixel is processed; otherwise a fresh buffer of the input's length where each processed pixel is its perturbed lookup, and the tail past whole rows stays 0 |
| RandomDithering.RandomDither.ZeroedBuffer | main/src/main/java/io/github/pulsebeat02/ezmediacore/dither/algorithm/random/RandomDither.java:75 | `Unpooled.buffer(length)`: length bytes, all zero |
| RandomDithering.RandomDither.SlotRow | main/src/main/java/io/github/pulsebeat02/ezmediacore/dither/algorithm/random/RandomDither.java:78-88 | one row of `setByte` writes; other positions are unchanged |
| RandomDithering.RandomDither.Dither | main/src/main/java/io/github/pulsebeat02/ezmediacore/dither/algorithm/random/RandomDither.java:93-110 | throws, with the buffer untouched, exactly when `nextInt` refuses its bounds and some pixel is processed; otherwise in place: each processed pixel becomes the RGB of its perturbed slot, and the tail is unchanged |
| RandomDithering.RandomDither.ColorRow | main/src/main/java/io/github/pulsebeat02/ezmediacore/dither/algorithm/random/RandomDither.java:98-108 | one row rewritten in place; other positions unchanged |
| TileCompositor.CeilTile | v1_16_R3/src/main/java/io/github/pulsebeat02/ezmediacore/nms/impl/v1_16_R3/NMSMapPacketInterceptor.java:189-190 | `Math.ceil(n / 128.0)` is the least c with n <= 128c |
| TileCompositor.TileBounds | v1_16_R3/src/main/java/io/github/pulsebeat02/ezmediacore/nms/impl/v1_16_R3/NMSMapPacketInterceptor.java:194-203 | each visited map's rectangle fits in the map, is non-empty for a non-empty video, and lies inside both the video and the grid |
| TileCompositor.CoveredPixelIsInItsMap | v1_16_R3/src/main/java/io/github/pulsebeat02/ezmediacore/nms/impl/v1_16_R3/NMSMapPacketInterceptor.java:187-203 | a video pixel on the grid falls inside the rectangle of map p/128 at offset p%128 |
| TileCompositor.RectanglePixelIsCovered | v1_16_R3/src/main/java/io/github/pulsebeat02/ezmediacore/nms/impl/v1_16_R3/NMSMapPacketInterceptor.java:195-203 | conversely, every rectangle pixel is a covered video pixel |
| TileCompositor.PlacementFor | v1_16_R3/src/main/java/io/github/pulsebeat02/ezmediacore/nms/impl/v1_16_R3/NMSMapPacketInterceptor.java:184-186 | `vidHeight = capacity / videoWidth`: the rows that fit whole, with less than one more row left over |
| TileCompositor.Centred | v1_16_R3/src/main/java/io/github/pulsebeat02/ezmediacore/nms/impl/v1_16_R3/NMSMapPacketInterceptor.java:123-136 | the offsets `(pix - video) >> 1` leave margins that differ by at most one pixel on each axis |
| TileCompositor.CentredAxisNotReversed | v1_16_R3/src/main/java/io/github/pulsebeat02/ezmediacore/nms/impl/v1_16_R3/NMSMapPacketInterceptor.java:123-136 | on an axis of at least zero maps the centred loop range is never reversed |
| TileCompositor.CentredAllocationNonNegative | v1_16_R3/src/main/java/io/github/pulsebeat02/ezmediacore/nms/impl/v1_16_R3/NMSMapPacketInterceptor.java:122-136 | the centring overload on a grid of at least zero maps each way never asks for a negative array size |
| TileCompositor.CentredNegativeWidthAllocation | v1_16_R3/src/main/java/io/github/pulsebeat02/ezmediacore/nms/impl/v1_16_R3/NMSMapPacketInterceptor.java:122-136 | on a -1 x 1 grid with a 128 x 128 video the centring overload asks for -1 slots |
| TileCompositor.VisitedRectReadsInside | v1_16_R3/src/main/java/io/github/pulsebeat02/ezmediacore/nms/impl/v1_16_R3/NMSMapPacketInterceptor.java:205-210 | every index `rgb.get` reads for a visited map lies inside the frame |
| TileCompositor.RectData | v1_16_R3/src/main/java/io/github/pulsebeat02/ezmediacore/nms/impl/v1_16_R3/NMSMapPacketInterceptor.java:204 | `mapData` has `xDiff * yDiff` bytes |
| TileCompositor.ByteAtRow | v1_16_R3/src/main/java/io/github/pulsebeat02/ezmediacore/nms/impl/v1_16_R3/NMSMapPacketInterceptor.java:205-211 | byte `(iy - topY) * xDiff + ix - topX` of the map is frame byte `(yPos - yOff) * videoWidth + relX + ix - xOff` |
| TileCompositor.MapIdsDistinct | v1_16_R3/src/main/java/io/github/pulsebeat02/ezmediacore/nms/impl/v1_16_R3/NMSMapPacketInterceptor.java:213 | `map + width * y + x` gives distinct grid cells distinct map ids |
| TileCompositor.VisitedMapsInsideGrid | v1_16_R3/src/main/java/io/github/pulsebeat02/ezmediacore/nms/impl/v1_16_R3/NMSMapPacketInterceptor.java:187-190 | the loops visit only maps of the width x height grid |
| TileCompositor.ScreenPixelInItsTile | v1_16_R3/src/main/java/io/github/pulsebeat02/ezmediacore/nms/impl/v1_16_R3/NMSMapPacketInterceptor.java:194-229 | every video pixel on the grid appears in the descriptor of its own map, at its own offset, with its own byte |
| TileCompositor.RowStart | v1_16_R3/src/main/java/io/github/pulsebeat02/ezmediacore/nms/impl/v1_16_R3/NMSMapPacketInterceptor.java:193-229 | `arrIndex` at the start of a visited row leaves room for that row in the array |
| TileCompositor.RowStartNext | v1_16_R3/src/main/java/io/github/pulsebeat02/ezmediacore/nms/impl/v1_16_R3/NMSMapPacketInterceptor.java:229 | each row advances `arrIndex` by the row's map count |
| TileCompositor.RowStartMono | v1_16_R3/src/main/java/io/github/pulsebeat02/ezmediacore/nms/impl/v1_16_R3/NMSMapPacketInterceptor.java:229 | later rows start after earlier rows end |
| TileCompositor.Slot | v1_16_R3/src/main/java/io/github/pulsebeat02/ezmediacore/nms/impl/v1_16_R3/NMSMapPacketInterceptor.java:229 | the slot of a visited map lies in its row's part of the array |
| TileCompositor.SlotDecode | v1_16_R3/src/main/java/io/github/pulsebeat02/ezmediacore/nms/impl/v1_16_R3/NMSMapPacketInterceptor.java:229 | a slot decodes back to its map's row and column, so no two maps share a slot |
| TileCompositor.SlotOnto | v1_16_R3/src/main/java/io/github/pulsebeat02/ezmediacore/nms/impl/v1_16_R3/NMSMapPacketInterceptor.java:191-229 | every slot of the array belongs to some visited map, so none stays null |
| TileCompositor.AllocationCases | v1_16_R3/src/main/java/io/github/pulsebeat02/ezmediacore/nms/impl/v1_16_R3/NMSMapPacketInterceptor.java:187-192 | the allocated size is negative exactly when one loop range is reversed and the other visits a map; otherwise it is the number of visited maps, or both ranges are reversed and no map is visited |
| TileCompositor.AllocationMatchesCount | v1_16_R3/src/main/java/io/github/pulsebeat02/ezmediacore/nms/impl/v1_16_R3/NMSMapPacketInterceptor.java:191-192 | while neither loop range is reversed, the allocated size equals the number of maps visited |
| TileCompositor.OffGridAllocationIsNegative | v1_16_R3/src/main/java/io/github/pulsebeat02/ezmediacore/nms/impl/v1_16_R3/NMSMapPacketInterceptor.java:191-192 | a video right of a one-map grid makes the Java code allocate -1 slots where no map is visited |
| TileCompositor.OffGridAllocationHasEmptySlot | v1_16_R3/src/main/java/io/github/pulsebeat02/ezmediacore/nms/impl/v1_16_R3/NMSMapPacketInterceptor.java:191-192 | a video right of and below the grid makes the Java code allocate 1 slot that no descriptor fills |
| TileCompositor.CopyTile | v1_16_R3/src/main/java/io/github/pulsebeat02/ezmediacore/nms/impl/v1_16_R3/NMSMapPacketInterceptor.java:204-212 | the copy loops produce a fresh `mapData` equal to the map's rectangle of the frame |
| TileCompositor.CopyTileRow | v1_16_R3/src/main/java/io/github/pulsebeat02/ezmediacore/nms/impl/v1_16_R3/NMSMapPacketInterceptor.java:205-211 | one `iy` row of `mapData` is written and the rest is unchanged |
| TileCompositor.NewPacketArray | v1_16_R3/src/main/java/io/github/pulsebeat02/ezmediacore/nms/impl/v1_16_R3/NMSMapPacketInterceptor.java:191-192 | a fresh array of the requested size, every slot null |
| TileCompositor.ComposeTiles | v1_16_R3/src/main/java/io/github/pulsebeat02/ezmediacore/nms/impl/v1_16_R3/NMSMapPacketInterceptor.java:184-232 | a fresh array of the allocated size holding `PacketSlots`: each visited map's descriptor in its slot, nulls after them |
| TileCompositor.Tiles | v1_18_R1/src/main/java/io/github/pulsebeat02/ezmediacore/nms/impl/v1_18_R1/NMSMapPacketInterceptor.java:112-172 | the descriptor sequence has one entry per visited map |
| TileCompositor.TilesAtSlot | v1_18_R1/src/main/java/io/github/pulsebeat02/ezmediacore/nms/impl/v1_18_R1/NMSMapPacketInterceptor.java:161-169 | entry `Slot(x, y)` of the sequence is the descriptor of map (x, y) |
| TileCompositor.PacketSlots | v1_18_R1/src/main/java/io/github/pulsebeat02/ezmediacore/nms/impl/v1_18_R1/NMSMapPacketInterceptor.java:119-172 | the allocated number of slots; it is exactly the descriptor sequence whenever some map is visited, and all null when none is |
| TileCompositor.ComposedIsPacketSlots | v1_18_R1/src/main/java/io/github/pulsebeat02/ezmediacore/nms/impl/v1_18_R1/NMSMapPacketInterceptor.java:119-172 | an allocated array with each visited map's descriptor in its slot and nulls after them is `PacketSlots` |
| TileCompositor.ComposedIsTiles | v1_18_R1/src/main/java/io/github/pulsebeat02/ezmediacore/nms/impl/v1_18_R1/NMSMapPacketInterceptor.java:119-172 | any array holding each visited map's descriptor in its slot is that sequence |
| TileCompositor.NextRowComposed | v1_18_R1/src/main/java/io/github/pulsebeat02/ezmediacore/nms/impl/v1_18_R1/NMSMapPacketInterceptor.java:122-172 | finishing row y keeps the earlier rows and completes every row up to y |
| TileCompositor.BuildPacket | v1_18_R1/src/main/java/io/github/pulsebeat02/ezmediacore/nms/impl/v1_18_R1/NMSMapPacketInterceptor.java:127-168 | the packet built for map (x, y) is its descriptor: id, rectangle and bytes |
| TileCompositor.ComposeRow | v1_18_R1/src/main/java/io/github/pulsebeat02/ezmediacore/nms/impl/v1_18_R1/NMSMapPacketInterceptor.java:126-171 | the inner loop stores map x of row y at `arrIndex + (x - xLoopMin)` and changes nothing else |
| PacketDelivery.ReceivedAppend | v1_16_R3/src/main/java/io/github/pulsebeat02/ezmediacore/nms/impl/v1_16_R3/NMSMapPacketInterceptor.java:233-257 | what a player receives from two runs of sends is what they receive from each, in order |
| PacketDelivery.ReceivedSendAll | v1_16_R3/src/main/java/io/github/pulsebeat02/ezmediacore/nms/impl/v1_16_R3/NMSMapPacketInterceptor.java:251-253 | sending a batch over one connection hands that player the batch and nobody else anything |
| PacketDelivery.CrashIsFinal | v1_16_R3/src/main/java/io/github/pulsebeat02/ezmediacore/nms/impl/v1_16_R3/NMSMapPacketInterceptor.java:233-243 | once a delivery throws, the later viewers change nothing |
| PacketDelivery.StampedRate | v1_16_R3/src/main/java/io/github/pulsebeat02/ezmediacore/nms/impl/v1_16_R3/NMSMapPacketInterceptor.java:246-248 | after stamping a run of viewers, a viewer is due exactly when they were not served in the run and were due before |
| PacketDelivery.StampedStep | v1_16_R3/src/main/java/io/github/pulsebeat02/ezmediacore/nms/impl/v1_16_R3/NMSMapPacketInterceptor.java:246-248 | one more viewer is stamped with `now` exactly when they are due |
| PacketDelivery.RateLimitedStamps | v1_16_R3/src/main/java/io/github/pulsebeat02/ezmediacore/nms/impl/v1_16_R3/NMSMapPacketInterceptor.java:245-256 | a rate-limited delivery stamps exactly the viewers that were due |
| PacketDelivery.RateLimitedReceived | v1_16_R3/src/main/java/io/github/pulsebeat02/ezmediacore/nms/impl/v1_16_R3/NMSMapPacketInterceptor.java:245-256 | a rate-limited delivery hands the batch once to each due viewer with a connection, and nothing to anybody else |
| PacketDelivery.StepReceived | v1_16_R3/src/main/java/io/github/pulsebeat02/ezmediacore/nms/impl/v1_16_R3/NMSMapPacketInterceptor.java:246-255 | serving one viewer adds the batch to that viewer's packets only, and only if they are due and connected |
| PacketDelivery.DeliveryCrashes | v1_16_R3/src/main/java/io/github/pulsebeat02/ezmediacore/nms/impl/v1_16_R3/NMSMapPacketInterceptor.java:233-243 | a delivery without a null check throws exactly when a non-empty batch meets a served viewer with no connection |
| PacketDelivery.UnlimitedDelivery | v1_16_R3/src/main/java/io/github/pulsebeat02/ezmediacore/nms/impl/v1_16_R3/NMSMapPacketInterceptor.java:300-308 | an unlimited delivery hands each connected viewer the batch once per time they are listed, and stamps nobody |
| PacketDelivery.UnlimitedKeepsStamps | v1_16_R3/src/main/java/io/github/pulsebeat02/ezmediacore/nms/impl/v1_16_R3/NMSMapPacketInterceptor.java:293-308 | entity deliveries never touch `lastUpdated` |
| PacketDelivery.SendBatch | v1_16_R3/src/main/java/io/github/pulsebeat02/ezmediacore/nms/impl/v1_16_R3/NMSMapPacketInterceptor.java:251-253 | the send loop appends the batch for that player to the log |
| PacketDelivery.DeliverLoop | v1_16_R3/src/main/java/io/github/pulsebeat02/ezmediacore/nms/impl/v1_16_R3/NMSMapPacketInterceptor.java:233-257 | the viewer loop with its rate limit and connection lookup reaches the delivery outcome |
| PacketDelivery.PackedFields | v1_16_R3/src/main/java/io/github/pulsebeat02/ezmediacore/nms/impl/v1_16_R3/NMSMapPacketInterceptor.java:147 | fields of 26, 12 and 26 bits at bits 38, 0 and 12 can each be read back |
| PacketDelivery.BlockPositionFields | v1_16_R3/src/main/java/io/github/pulsebeat02/ezmediacore/nms/impl/v1_16_R3/NMSMapPacketInterceptor.java:147 | the packed long holds the low 26 bits of x, the low 12 of y and the low 26 of z, each recoverable |
| PacketDelivery.GlyphsAppend | v1_16_R3/src/main/java/io/github/pulsebeat02/ezmediacore/nms/impl/v1_16_R3/NMSMapPacketInterceptor.java:321-329 | the character count of a concatenated message is the sum of the counts |
| PacketDelivery.LineGlyphCount | v1_16_R3/src/main/java/io/github/pulsebeat02/ezmediacore/nms/impl/v1_16_R3/NMSMapPacketInterceptor.java:322-328 | a chat row holds exactly one character per pixel |
| PacketDelivery.ShownAppend | v1_16_R3/src/main/java/io/github/pulsebeat02/ezmediacore/nms/impl/v1_16_R3/NMSMapPacketInterceptor.java:324-328 | the colours shown by a concatenated message are the first part's, then the second part's in the colour the first ends in |
| PacketDelivery.LineShowsRow | v1_16_R3/src/main/java/io/github/pulsebeat02/ezmediacore/nms/impl/v1_16_R3/NMSMapPacketInterceptor.java:320-328 | printing only colour changes (starting from -1) still shows every pixel in its own colour, and the line ends in the last pixel's colour |
| PacketDelivery.LastColourAppend | v1_16_R3/src/main/java/io/github/pulsebeat02/ezmediacore/nms/impl/v1_16_R3/NMSMapPacketInterceptor.java:324-328 | the colour in force after a concatenation is the second part's, starting from the first part's |
| PacketDelivery.ChatLine | v1_16_R3/src/main/java/io/github/pulsebeat02/ezmediacore/nms/impl/v1_16_R3/NMSMapPacketInterceptor.java:320-329 | the `StringBuilder` loop builds the row's message |
| PacketDelivery.Rgb24 | v1_16_R3/src/main/java/io/github/pulsebeat02/ezmediacore/nms/impl/v1_16_R3/NMSMapPacketInterceptor.java:275 | `c & 0xFFFFFF` is a 24-bit colour |
| PacketDelivery.EntityColours | v1_16_R3/src/main/java/io/github/pulsebeat02/ezmediacore/nms/impl/v1_16_R3/NMSMapPacketInterceptor.java:272-276 | name line i has one colour per column, the 24-bit colour of `data[i * width + x]` |
| PacketDelivery.EntityRow | v1_16_R3/src/main/java/io/github/pulsebeat02/ezmediacore/nms/impl/v1_16_R3/NMSMapPacketInterceptor.java:272-276 | a name line has `max(width, 0)` colours |
| PacketDelivery.EntityBatch | v1_16_R3/src/main/java/io/github/pulsebeat02/ezmediacore/nms/impl/v1_16_R3/NMSMapPacketInterceptor.java:267-292 | one packet per row |
| PacketDelivery.EntityBatchRows | v1_16_R3/src/main/java/io/github/pulsebeat02/ezmediacore/nms/impl/v1_16_R3/NMSMapPacketInterceptor.java:270-291 | packet i names entity i and carries row i of the data |
| PacketDelivery.ReadEntityRow | v1_16_R3/src/main/java/io/github/pulsebeat02/ezmediacore/nms/impl/v1_16_R3/NMSMapPacketInterceptor.java:272-277 | `data[index++]` for each column: fails exactly when the row runs past the data, and otherwise reads the row's 24-bit colours and advances the index by the width |
| PacketDelivery.BuildEntityPackets | v1_16_R3/src/main/java/io/github/pulsebeat02/ezmediacore/nms/impl/v1_16_R3/NMSMapPacketInterceptor.java:267-292 | fails exactly when `min(height, entities)` is negative or its rows run past the data; otherwise the batch is one packet per row |
| PacketDelivery.MapUpdates | v1_16_R3/src/main/java/io/github/pulsebeat02/ezmediacore/nms/impl/v1_16_R3/NMSMapPacketInterceptor.java:251-253 | one map packet per descriptor, in array order |
| PacketDelivery.Connected | v1_16_R3/src/main/java/io/github/pulsebeat02/ezmediacore/nms/impl/v1_16_R3/NMSMapPacketInterceptor.java:393-407 | the keys of `connections` are the ids in the connection list |
| PacketDelivery.ConnectedNeverCrash | v1_16_R3/src/main/java/io/github/pulsebeat02/ezmediacore/nms/impl/v1_16_R3/NMSMapPacketInterceptor.java:233-243 | iterating `connections.keySet()` never meets a missing connection |
| PacketDelivery.WithConnection | v1_16_R3/src/main/java/io/github/pulsebeat02/ezmediacore/nms/impl/v1_16_R3/NMSMapPacketInterceptor.java:393 | `connections.put` adds the player, keeps the others and keeps the keys distinct |
| PacketDelivery.WithoutConnection | v1_16_R3/src/main/java/io/github/pulsebeat02/ezmediacore/nms/impl/v1_16_R3/NMSMapPacketInterceptor.java:407 | `connections.remove` drops exactly that player |
| PacketDelivery.WithoutConnectionDistinct | v1_16_R3/src/main/java/io/github/pulsebeat02/ezmediacore/nms/impl/v1_16_R3/NMSMapPacketInterceptor.java:407 | removing a key keeps the keys distinct |
| InterceptorV1_16.ChatRow | v1_16_R3/src/main/java/io/github/pulsebeat02/ezmediacore/nms/impl/v1_16_R3/NMSMapPacketInterceptor.java:322-323 | row y has `max(width, 0)` pixels, pixel x being `data[width * y + x]` |
| InterceptorV1_16.ChatRowCall | v1_16_R3/src/main/java/io/github/pulsebeat02/ezmediacore/nms/impl/v1_16_R3/NMSMapPacketInterceptor.java:320-337 | one turn of the row loop reaches the outcome of one chat row |
| InterceptorV1_16.ChatOutcomeNext | v1_16_R3/src/main/java/io/github/pulsebeat02/ezmediacore/nms/impl/v1_16_R3/NMSMapPacketInterceptor.java:319 | the outcome of y + 1 rows is row y's step after the outcome of y rows, when those did not throw |
| InterceptorV1_16.ChatCrashIsFinal | v1_16_R3/src/main/java/io/github/pulsebeat02/ezmediacore/nms/impl/v1_16_R3/NMSMapPacketInterceptor.java:319-338 | once a row throws, later rows change nothing |
| InterceptorV1_16.ChatSendsEveryRow | v1_16_R3/src/main/java/io/github/pulsebeat02/ezmediacore/nms/impl/v1_16_R3/NMSMapPacketInterceptor.java:319-338 | with every viewer connected and every row inside the data, `displayChat` does not throw and leaves `lastUpdated` alone |
| InterceptorV1_16.ChatRowDelivered | v1_16_R3/src/main/java/io/github/pulsebeat02/ezmediacore/nms/impl/v1_16_R3/NMSMapPacketInterceptor.java:320-337 | under the same conditions one row does not throw and leaves `lastUpdated` alone |
| InterceptorV1_16.ChatRows | v1_16_R3/src/main/java/io/github/pulsebeat02/ezmediacore/nms/impl/v1_16_R3/NMSMapPacketInterceptor.java:319-338 | the row loop reaches the outcome of `max(height, 0)` rows |
| InterceptorV1_16.NMSMapPacketInterceptor.constructor | v1_16_R3/src/main/java/io/github/pulsebeat02/ezmediacore/nms/impl/v1_16_R3/NMSMapPacketInterceptor.java:106-120 | no connections, no stamps, no maps, nothing sent |
| InterceptorV1_16.NMSMapPacketInterceptor.InjectPlayer | v1_16_R3/src/main/java/io/github/pulsebeat02/ezmediacore/nms/impl/v1_16_R3/NMSMapPacketInterceptor.java:381-394 | the player gains a connection and nothing else changes |
| InterceptorV1_16.NMSMapPacketInterceptor.UninjectPlayer | v1_16_R3/src/main/java/io/github/pulsebeat02/ezmediacore/nms/impl/v1_16_R3/NMSMapPacketInterceptor.java:396-408 | the player loses their connection and nothing else changes |
| InterceptorV1_16.NMSMapPacketInterceptor.RegisterMap | v1_16_R3/src/main/java/io/github/pulsebeat02/ezmediacore/nms/impl/v1_16_R3/NMSMapPacketInterceptor.java:410-418 | the id becomes registered and no other id changes |
| InterceptorV1_16.NMSMapPacketInterceptor.UnregisterMap | v1_16_R3/src/main/java/io/github/pulsebeat02/ezmediacore/nms/impl/v1_16_R3/NMSMapPacketInterceptor.java:420-423 | the id becomes unregistered and no other id changes |
| InterceptorV1_16.NMSMapPacketInterceptor.DisplayMaps | v1_16_R3/src/main/java/io/github/pulsebeat02/ezmediacore/nms/impl/v1_16_R3/NMSMapPacketInterceptor.java:174-258 | throws, changing nothing, exactly when the allocated array size is negative; otherwise stamps exactly the due viewers, each due viewer with a connection receives the whole packet array once, in slot order, and nobody else receives anything |
| InterceptorV1_16.NMSMapPacketInterceptor.DisplayMapsCentred | v1_16_R3/src/main/java/io/github/pulsebeat02/ezmediacore/nms/impl/v1_16_R3/NMSMapPacketInterceptor.java:122-136 | the centring overload is `displayMaps` at the centred offsets, throwing exactly when their array size is negative |
| InterceptorV1_16.NMSMapPacketInterceptor.DisplayDebugMarker | v1_16_R3/src/main/java/io/github/pulsebeat02/ezmediacore/nms/impl/v1_16_R3/NMSMapPacketInterceptor.java:138-172 | rate-limited and null-checked: stamps exactly the due viewers, and each due connected viewer receives the one marker packet |
| InterceptorV1_16.NMSMapPacketInterceptor.DisplayEntities | v1_16_R3/src/main/java/io/github/pulsebeat02/ezmediacore/nms/impl/v1_16_R3/NMSMapPacketInterceptor.java:260-310 | fails exactly when the packets cannot be built and then sends nothing; otherwise each connected viewer receives the rows once per listing, and `lastUpdated` is untouched |
| InterceptorV1_16.NMSMapPacketInterceptor.DisplayChat | v1_16_R3/src/main/java/io/github/pulsebeat02/ezmediacore/nms/impl/v1_16_R3/NMSMapPacketInterceptor.java:312-339 | the state and the throw flag are the row-by-row chat outcome, with no null check on connections |
| InterceptorV1_18.NMSMapPacketInterceptor.constructor | v1_18_R1/src/main/java/io/github/pulsebeat02/ezmediacore/nms/impl/v1_18_R1/NMSMapPacketInterceptor.java:74-81 | no connections, no stamps, no maps, nothing sent |
| InterceptorV1_18.NMSMapPacketInterceptor.InjectPlayer | v1_18_R1/src/main/java/io/github/pulsebeat02/ezmediacore/nms/impl/v1_18_R1/NMSMapPacketInterceptor.java:273-286 | the player gains a connection and nothing else changes |
| InterceptorV1_18.NMSMapPacketInterceptor.UninjectPlayer | v1_18_R1/src/main/java/io/github/pulsebeat02/ezmediacore/nms/impl/v1_18_R1/NMSMapPacketInterceptor.java:288-299 | the player loses their connection and nothing else changes |
| InterceptorV1_18.NMSMapPacketInterceptor.RegisterMap | v1_18_R1/src/main/java/io/github/pulsebeat02/ezmediacore/nms/impl/v1_18_R1/NMSMapPacketInterceptor.java:311-314 | the id becomes registered and no other id changes |
| InterceptorV1_18.NMSMapPacketInterceptor.UnregisterMap | v1_18_R1/src/main/java/io/github/pulsebeat02/ezmediacore/nms/impl/v1_18_R1/NMSMapPacketInterceptor.java:301-309 | the id becomes unregistered and no other id changes |
| InterceptorV1_18.NMSMapPacketInterceptor.DisplayDebugMarker | v1_18_R1/src/main/java/io/github/pulsebeat02/ezmediacore/nms/impl/v1_18_R1/NMSMapPacketInterceptor.java:83-100 | neither rate-limited nor null-checked: succeeds exactly when every viewer has a connection, each then receiving the marker once per listing |
| InterceptorV1_18.NMSMapPacketInterceptor.DisplayMaps | v1_18_R1/src/main/java/io/github/pulsebeat02/ezmediacore/nms/impl/v1_18_R1/NMSMapPacketInterceptor.java:102-182 | throws, changing nothing, when the allocated array size is negative; otherwise succeeds exactly when the array is empty or every due viewer has a connection, which always holds for a null viewer array; then stamps exactly the due viewers, each connected due viewer receiving the whole packet array once |
| InterceptorV1_18.NMSMapPacketInterceptor.DisplayEntities | v1_18_R1/src/main/java/io/github/pulsebeat02/ezmediacore/nms/impl/v1_18_R1/NMSMapPacketInterceptor.java:203-259 | succeeds exactly when the packets can be built and, for a non-empty batch, every viewer has a connection; the rows go out in order and `lastUpdated` is untouched |
| Xoroshiro.UnstepStep | api/src/main/java/io/github/pulsebeat02/ezmediacore/random/Xoroshiro128PlusRandom.java:85-93 | the state update of `nextLong` can be undone |
| Xoroshiro.StepUnstep | api/src/main/java/io/github/pulsebeat02/ezmediacore/random/Xoroshiro128PlusRandom.java:85-93 | every state is reached from exactly one predecessor, so the update is a bijection |
| Xoroshiro.ZeroIsFixed | api/src/main/java/io/github/pulsebeat02/ezmediacore/random/Xoroshiro128PlusRandom.java:85-93 | the all-zero state steps to itself |
| Xoroshiro.NonzeroStaysNonzero | api/src/main/java/io/github/pulsebeat02/ezmediacore/random/Xoroshiro128PlusRandom.java:85-93 | a state is non-zero exactly when the next one is |
| Xoroshiro.IterateNonzero | api/src/main/java/io/github/pulsebeat02/ezmediacore/random/Xoroshiro128PlusRandom.java:85-93 | a non-zero state stays non-zero after any number of draws |
| Xoroshiro.InitialStateNonzero | api/src/main/java/io/github/pulsebeat02/ezmediacore/random/Xoroshiro128PlusRandom.java:19-30 | with an injective hash fixing 0, the constructor's `0xdeadbeef` fallback never leaves the zero state |
| Xoroshiro.NonNegativeIsSignBitClear | api/src/main/java/io/github/pulsebeat02/ezmediacore/random/Xoroshiro128PlusRandom.java:43-45 | `nextLong() >= 0` holds exactly when bit 63 is clear |
| Xoroshiro.TopBitsBound | api/src/main/java/io/github/pulsebeat02/ezmediacore/random/Xoroshiro128PlusRandom.java:96-98 | `next(bits)` for 1 <= bits < 32 lies in [0, 2^bits) |
| Xoroshiro.TopBitsAll | api/src/main/java/io/github/pulsebeat02/ezmediacore/random/Xoroshiro128PlusRandom.java:96-98 | `next(32)` returns the whole int, since Java masks the shift distance 0 |
| Xoroshiro.HighBytesOfInt | api/src/main/java/io/github/pulsebeat02/ezmediacore/random/Xoroshiro128PlusRandom.java:50-53 | the upper four bytes of the sign-extended `nextInt()` copy its sign: all 0x00 or all 0xFF |
| Xoroshiro.FilledHighBytesAreSign | api/src/main/java/io/github/pulsebeat02/ezmediacore/random/Xoroshiro128PlusRandom.java:50-53 | as written, bytes 4 to 7 of every group of eight are all 0x00 or all 0xFF, following the sign of that group's `nextInt` |
| Xoroshiro.BytesOfLong | api/src/main/java/io/github/pulsebeat02/ezmediacore/random/Xoroshiro128PlusRandom.java:51-53 | the byte written after j shifts of `rnd >>>= 8` is bits 8j..8j+7 of `rnd` |
| Xoroshiro.BytesDetermineLong | api/src/main/java/io/github/pulsebeat02/ezmediacore/random/Xoroshiro128PlusRandom.java:51-53 | the eight bytes written from one `long`, low byte first, determine that `long` |
| Xoroshiro.DrawnGroupIsTheDraw | api/src/main/java/io/github/pulsebeat02/ezmediacore/random/Xoroshiro128PlusRandom.java:48-55 | when each group is filled from a whole `nextLong`, its eight bytes are exactly that draw and no other |
| Xoroshiro.Xoroshiro128PlusRandom.constructor | api/src/main/java/io/github/pulsebeat02/ezmediacore/random/Xoroshiro128PlusRandom.java:19-30 | the words are the hashed seed, or the hashed fallback when both are zero |
| Xoroshiro.Xoroshiro128PlusRandom.SetSeed | api/src/main/java/io/github/pulsebeat02/ezmediacore/random/Xoroshiro128PlusRandom.java:33-40 | accepted exactly in the zero state; otherwise it throws |
| Xoroshiro.Xoroshiro128PlusRandom.NextLong | api/src/main/java/io/github/pulsebeat02/ezmediacore/random/Xoroshiro128PlusRandom.java:85-93 | returns `s0 + s1` of the old state and steps the state once |
| Xoroshiro.Xoroshiro128PlusRandom.NextInt | api/src/main/java/io/github/pulsebeat02/ezmediacore/random/Xoroshiro128PlusRandom.java:68-70 | the low 32 bits of the next long, one step |
| Xoroshiro.Xoroshiro128PlusRandom.NextBits | api/src/main/java/io/github/pulsebeat02/ezmediacore/random/Xoroshiro128PlusRandom.java:96-98 | the top `bits` bits of the next int, one step |
| Xoroshiro.Xoroshiro128PlusRandom.NextBoolean | api/src/main/java/io/github/pulsebeat02/ezmediacore/random/Xoroshiro128PlusRandom.java:43-45 | true exactly when the next long is non-negative, one step |
| Xoroshiro.Xoroshiro128PlusRandom.NextBytes | api/src/main/java/io/github/pulsebeat02/ezmediacore/random/Xoroshiro128PlusRandom.java:48-55 | byte i is byte i % 8 of the sign-extended int of draw i / 8, and the state advances once per group of 8 |
| Xoroshiro.Xoroshiro128PlusRandom.NextBytesFromLong | api/src/main/java/io/github/pulsebeat02/ezmediacore/random/Xoroshiro128PlusRandom.java:48-55 | the corrected `nextBytes`: byte i is byte i % 8 of the whole `nextLong` of group i / 8, with the same number of steps |
| Xoroshiro.Xoroshiro128PlusRandom.FillGroup | api/src/main/java/io/github/pulsebeat02/ezmediacore/random/Xoroshiro128PlusRandom.java:51-53 | the inner loop writes up to 8 bytes of `rnd`, low byte first, and leaves the earlier bytes alone |
| Xoroshiro.GroupIndex | api/src/main/java/io/github/pulsebeat02/ezmediacore/random/Xoroshiro128PlusRandom.java:49-53 | byte 8k + m belongs to group k at offset m |
| JarRelocator.LastSlash | MinecraftMediaLibrary/src/main/java/com/github/pulsebeat02/minecraftmedialibrary/relocation/JarRelocatorTask.java:108 | `lastIndexOf('/')`: -1 or the position of a `/` with none after it |
| JarRelocator.FirstDot | MinecraftMediaLibrary/src/main/java/com/github/pulsebeat02/minecraftmedialibrary/relocation/JarRelocatorTask.java:152 | `indexOf('.')`: -1 or the position of a `.` with none before it |
| JarRelocator.ElementsMembers | MinecraftMediaLibrary/src/main/java/com/github/pulsebeat02/minecraftmedialibrary/relocation/JarRelocatorTask.java:123 | the names recorded by a run of `resources.add` are exactly the run's names |
| JarRelocator.DirEntriesAt | MinecraftMediaLibrary/src/main/java/com/github/pulsebeat02/minecraftmedialibrary/relocation/JarRelocatorTask.java:121-122 | a run of directory puts writes one directory entry per name, in order |
| JarRelocator.FlattenAppend | MinecraftMediaLibrary/src/main/java/com/github/pulsebeat02/minecraftmedialibrary/relocation/JarRelocatorTask.java:57-66 | the bytes copied from two runs of reads are those of each run, in order |
| JarRelocator.AncestorsArePrefixes | MinecraftMediaLibrary/src/main/java/com/github/pulsebeat02/minecraftmedialibrary/relocation/JarRelocatorTask.java:108-113 | every directory the recursion can reach is a proper prefix of the name ending before a `/` |
| JarRelocator.MissingShape | MinecraftMediaLibrary/src/main/java/com/github/pulsebeat02/minecraftmedialibrary/relocation/JarRelocatorTask.java:107-114 | the directories still to create are unrecorded ancestors, outermost first, each longer than the one before |
| JarRelocator.DirectoryStepUnfold | MinecraftMediaLibrary/src/main/java/com/github/pulsebeat02/minecraftmedialibrary/relocation/JarRelocatorTask.java:109-124 | an unrecorded parent is created, after its own parents, with a `/`-terminated entry |
| JarRelocator.ElementsSnoc | MinecraftMediaLibrary/src/main/java/com/github/pulsebeat02/minecraftmedialibrary/relocation/JarRelocatorTask.java:121-123 | one more directory adds one name to the set and one entry to the output |
| JarRelocator.DirectoryStepCreatesMissing | MinecraftMediaLibrary/src/main/java/com/github/pulsebeat02/minecraftmedialibrary/relocation/JarRelocatorTask.java:107-124 | `processDirectory(name, true)` records and writes exactly the missing ancestors, outermost first, and nothing else |
| JarRelocator.ClosedHasAncestors | MinecraftMediaLibrary/src/main/java/com/github/pulsebeat02/minecraftmedialibrary/relocation/JarRelocatorTask.java:109-113 | in a set closed under parents, a recorded name has all its ancestors recorded |
| JarRelocator.DirectoryStepClosed | MinecraftMediaLibrary/src/main/java/com/github/pulsebeat02/minecraftmedialibrary/relocation/JarRelocatorTask.java:107-124 | creating an entry's parents keeps the recorded names closed under parents and records every ancestor |
| JarRelocator.AppendDirectoriesValid | MinecraftMediaLibrary/src/main/java/com/github/pulsebeat02/minecraftmedialibrary/relocation/JarRelocatorTask.java:111-123 | writing fresh directories, no two alike, keeps every directory recorded and written at most once |
| JarRelocator.DirectoryStepValid | MinecraftMediaLibrary/src/main/java/com/github/pulsebeat02/minecraftmedialibrary/relocation/JarRelocatorTask.java:107-124 | `processDirectory` keeps the jar valid: closed under parents, directories recorded and never written twice |
| JarRelocator.EntryStepValid | MinecraftMediaLibrary/src/main/java/com/github/pulsebeat02/minecraftmedialibrary/relocation/JarRelocatorTask.java:83-105 | one entry keeps the jar valid |
| JarRelocator.EntriesStepValid | MinecraftMediaLibrary/src/main/java/com/github/pulsebeat02/minecraftmedialibrary/relocation/JarRelocatorTask.java:73-91 | the whole entry loop keeps the jar valid, so no directory entry is ever duplicated |
| JarRelocator.EntryStepEffect | MinecraftMediaLibrary/src/main/java/com/github/pulsebeat02/minecraftmedialibrary/relocation/JarRelocatorTask.java:83-105 | the four cases: a skipped entry changes nothing; a class adds the missing parents and the relocated class; a recorded resource adds only the parents; a new resource adds the parents and the resource with its time and all its bytes |
| JarRelocator.EntriesStepGrows | MinecraftMediaLibrary/src/main/java/com/github/pulsebeat02/minecraftmedialibrary/relocation/JarRelocatorTask.java:73-91 | the loop only adds: the recorded names grow and the output written so far is kept as a prefix |
| JarRelocator.JarRelocatorTask.constructor | MinecraftMediaLibrary/src/main/java/com/github/pulsebeat02/minecraftmedialibrary/relocation/JarRelocatorTask.java:50-55 | keeps the remapper, starts with no recorded names and no output, which is valid |
| JarRelocator.JarRelocatorTask.Copy | MinecraftMediaLibrary/src/main/java/com/github/pulsebeat02/minecraftmedialibrary/relocation/JarRelocatorTask.java:57-66 | the read/write loop copies every chunk until end of stream, in order |
| JarRelocator.JarRelocatorTask.ProcessEntries | MinecraftMediaLibrary/src/main/java/com/github/pulsebeat02/minecraftmedialibrary/relocation/JarRelocatorTask.java:73-91 | the loop reaches the entries' outcome and keeps a valid jar valid |
| JarRelocator.JarRelocatorTask.ProcessEntry | MinecraftMediaLibrary/src/main/java/com/github/pulsebeat02/minecraftmedialibrary/relocation/JarRelocatorTask.java:93-105 | one entry's outcome |
| JarRelocator.JarRelocatorTask.ProcessDirectory | MinecraftMediaLibrary/src/main/java/com/github/pulsebeat02/minecraftmedialibrary/relocation/JarRelocatorTask.java:107-124 | the recursion reaches the directory step's outcome |
| JarRelocator.JarRelocatorTask.ProcessResource | MinecraftMediaLibrary/src/main/java/com/github/pulsebeat02/minecraftmedialibrary/relocation/JarRelocatorTask.java:126-135 | writes the resource with its time and all its bytes, and records its name |
| JarRelocator.JarRelocatorTask.ProcessClass | MinecraftMediaLibrary/src/main/java/com/github/pulsebeat02/minecraftmedialibrary/relocation/JarRelocatorTask.java:137-157 | writes the relocated bytes under the mapped name up to the first `.`, plus `.class`, and records nothing |
| ResourcepackListener.React | main/src/main/java/io/github/pulsebeat02/ezmediacore/listener/ForcefulResourcepackListener.java:60-76 | an event from a non-pending player does nothing; a settling answer drops exactly that player; a failed download resends; the listener unregisters exactly when the last pending player settles |
| ResourcepackListener.AfterEventsRemovesSettled | main/src/main/java/io/github/pulsebeat02/ezmediacore/listener/ForcefulResourcepackListener.java:64-74 | after any run of events the pending set is the initial set minus the players who answered with a settling status |
| ResourcepackListener.OnlineOfMembers | main/src/main/java/io/github/pulsebeat02/ezmediacore/listener/ForcefulResourcepackListener.java:34-43 | exactly the online pending players are offered the pack, each once, and every other player gets one log line |
| ResourcepackListener.ForcefulResourcepackListener.constructor | main/src/main/java/io/github/pulsebeat02/ezmediacore/listener/ForcefulResourcepackListener.java:20-32 | registers, and offers the pack to the online players in iteration order while logging the others |
| ResourcepackListener.ForcefulResourcepackListener.SendResourcepack | main/src/main/java/io/github/pulsebeat02/ezmediacore/listener/ForcefulResourcepackListener.java:34-43 | appends the online players' offers and the offline players' log lines, and changes nothing else |
| ResourcepackListener.ForcefulResourcepackListener.Start | main/src/main/java/io/github/pulsebeat02/ezmediacore/listener/ForcefulResourcepackListener.java:45-58 | arms one timer |
| ResourcepackListener.ForcefulResourcepackListener.Timeout | main/src/main/java/io/github/pulsebeat02/ezmediacore/listener/ForcefulResourcepackListener.java:47-56 | if anybody is still pending, logs them and unregisters the plugin's handlers; otherwise nothing; so the handler is still registered afterwards exactly when it was before and nobody is pending |
| ResourcepackListener.ForcefulResourcepackListener.OnResourcepackStatus | main/src/main/java/io/github/pulsebeat02/ezmediacore/listener/ForcefulResourcepackListener.java:60-76 | the new pending set, the resend and the unregistration are those of React |
| ResourcepackListener.ForcefulResourcepackListener.Settle | main/src/main/java/io/github/pulsebeat02/ezmediacore/listener/ForcefulResourcepackListener.java:69-74 | drops the player, and unregisters this listener once nobody is left; so it is still listening exactly when it was and somebody is still pending |
| ResourcepackListener.ForcefulResourcepackListener.OnStatusEvents | main/src/main/java/io/github/pulsebeat02/ezmediacore/listener/ForcefulResourcepackListener.java:60-76 | a run of events leaves exactly the players who gave no settling answer |
| JavaFiles.Collapse | MinecraftMediaLibrary/src/main/java/com/github/pulsebeat02/minecraftmedialibrary/image/MapImage.java:100 | collapsing runs of `/` leaves no `//`, keeps the last character and never lengthens |
| JavaFiles.Normalize | MinecraftMediaLibrary/src/main/java/com/github/pulsebeat02/minecraftmedialibrary/image/MapImage.java:100 | `new File(s)` stores a normal path, non-empty for a non-empty `s` |
| JavaFiles.CollapseKeeps | MinecraftMediaLibrary/src/main/java/com/github/pulsebeat02/minecraftmedialibrary/image/MapImage.java:100 | a path without `//` is not changed by collapsing |
| JavaFiles.NormalizeKeeps | MinecraftMediaLibrary/src/main/java/com/github/pulsebeat02/minecraftmedialibrary/image/MapImage.java:100 | normalising is idempotent on normal paths |
| JavaFiles.NewFile | MinecraftMediaLibrary/src/main/java/com/github/pulsebeat02/minecraftmedialibrary/image/MapImage.java:100 | the file's path is normal, and a normal path is kept as given |
| JavaFiles.AbsolutePathNormalized | MinecraftMediaLibrary/src/main/java/com/github/pulsebeat02/minecraftmedialibrary/image/MapImage.java:139 | `getAbsolutePath` of a file, against an absolute working directory, is absolute and normal |
| JavaFiles.AbsolutePathStable | MinecraftMediaLibrary/src/main/java/com/github/pulsebeat02/minecraftmedialibrary/image/MapImage.java:139 | a file made from an absolute path keeps it, and its absolute path is the same again |
| JavaFiles.PathOf | main/src/main/java/io/github/pulsebeat02/ezmediacore/player/input/implementation/MrlInput.java:56-58 | a `Path`'s string is normal, and a normal string is kept as given |
| Mrl.OfMrl | main/src/main/java/io/github/pulsebeat02/ezmediacore/player/input/implementation/MrlInput.java:45-53 | a null locator is refused with "MRL specified cannot be null!"; any string is wrapped and read back unchanged |
| Mrl.OfPath | main/src/main/java/io/github/pulsebeat02/ezmediacore/player/input/implementation/MrlInput.java:55-58 | the `Path` overload is the string overload applied to the path's `toString` |
| Mrl.OfPathNormalizes | main/src/main/java/io/github/pulsebeat02/ezmediacore/player/input/implementation/MrlInput.java:55-58 | a locator given as `Path.of(s)` reads back as `s` normalised, and as `s` when it is already normal |
| Mrl.OfFile | main/src/main/java/io/github/pulsebeat02/ezmediacore/player/input/implementation/MrlInput.java:60-63 | the `File` overload is the string overload applied to `getPath` |
| Mrl.EmptyMrl | main/src/main/java/io/github/pulsebeat02/ezmediacore/player/input/implementation/MrlInput.java:65-67 | the shared empty input, whose locator is `""` |
| Mrl.ParseToString | main/src/main/java/io/github/pulsebeat02/ezmediacore/player/input/implementation/MrlInput.java:78-82 | a parsed `{mrl=…}` form is six characters longer than its locator |
| Mrl.ToStringRoundTrip | main/src/main/java/io/github/pulsebeat02/ezmediacore/player/input/implementation/MrlInput.java:78-82 | `toString` can be read back to the locator, so distinct inputs print differently |
| Mrl.StringHash | main/src/main/java/io/github/pulsebeat02/ezmediacore/player/input/implementation/MrlInput.java:92-95 | `String.hashCode` is a 32-bit int |
| Mrl.WrapCongruent | main/src/main/java/io/github/pulsebeat02/ezmediacore/player/input/implementation/MrlInput.java:92-95 | integers that agree modulo 2^32 narrow to the same int |
| Mrl.PolynomialSnoc | main/src/main/java/io/github/pulsebeat02/ezmediacore/player/input/implementation/MrlInput.java:92-95 | the polynomial of s + [c] is 31 times that of s plus c |
| Mrl.StringHashIsPolynomial | main/src/main/java/io/github/pulsebeat02/ezmediacore/player/input/implementation/MrlInput.java:92-95 | Horner's rule in 32-bit arithmetic equals the polynomial `s[0]*31^(n-1) + … + s[n-1]` narrowed to 32 bits |
| Mrl.HashCode | main/src/main/java/io/github/pulsebeat02/ezmediacore/player/input/implementation/MrlInput.java:92-95 | `Objects.hash(mrl)` is `31 + ` the polynomial hash, narrowed to 32 bits |
| Mrl.Equals | main/src/main/java/io/github/pulsebeat02/ezmediacore/player/input/implementation/MrlInput.java:84-90 | true exactly for another `MrlInput` with the same locator, and equal inputs hash alike |
| Extraction.Check | main/src/main/java/io/github/pulsebeat02/minecraftmedialibrary/extractor/ExtractionSetting.java:56-60 | no error exactly for acceptable values; otherwise the error of the first failing check, in the Java code's order, with the value it reports |
| Extraction.DefaultsAcceptable | main/src/main/java/io/github/pulsebeat02/minecraftmedialibrary/extractor/ExtractionSetting.java:154-157 | the builder's defaults 160000 / 2 / 44100 / 48 pass every check |
| Extraction.ExtractionSetting.constructor | main/src/main/java/io/github/pulsebeat02/minecraftmedialibrary/extractor/ExtractionSetting.java:51-65 | "libvorbis" / "ogg" / "mp4" and the four values as given |
| Extraction.ExtractionSetting.Create | main/src/main/java/io/github/pulsebeat02/minecraftmedialibrary/extractor/ExtractionSetting.java:51-65 | throws exactly when a check fails, with that check's error; otherwise a fresh setting with the fixed formats and the given values |
| Extraction.ExtractionSetting.SetBitrate | main/src/main/java/io/github/pulsebeat02/minecraftmedialibrary/extractor/ExtractionSetting.java:116-119 | stores the bitrate unchecked and changes nothing else |
| Extraction.ExtractionSetting.SetChannels | main/src/main/java/io/github/pulsebeat02/minecraftmedialibrary/extractor/ExtractionSetting.java:126-129 | stores the channels unchecked and changes nothing else |
| Extraction.ExtractionSetting.SetSamplingRate | main/src/main/java/io/github/pulsebeat02/minecraftmedialibrary/extractor/ExtractionSetting.java:136-139 | stores the sampling rate unchecked and changes nothing else |
| Extraction.ExtractionSetting.SetVolume | main/src/main/java/io/github/pulsebeat02/minecraftmedialibrary/extractor/ExtractionSetting.java:146-149 | stores the volume unchecked and changes nothing else |
| Extraction.ExtractionSetting.Equals | main/src/main/java/io/github/pulsebeat02/minecraftmedialibrary/extractor/ExtractionSetting.java:76-89 | true exactly for a non-null setting with all seven properties equal |
| Extraction.SettersBypassChecks | main/src/main/java/io/github/pulsebeat02/minecraftmedialibrary/extractor/ExtractionSetting.java:146-149 | overwriting any one number of a valid setting with a value its check refuses gives properties the constructor rejects, with that number's error |
| Extraction.Builder.constructor | main/src/main/java/io/github/pulsebeat02/minecraftmedialibrary/extractor/ExtractionSetting.java:154-159 | starts at the defaults 160000 / 2 / 44100 / 48 |
| Extraction.Builder.SetBitrate | main/src/main/java/io/github/pulsebeat02/minecraftmedialibrary/extractor/ExtractionSetting.java:167-170 | sets one field and returns the same builder |
| Extraction.Builder.SetChannels | main/src/main/java/io/github/pulsebeat02/minecraftmedialibrary/extractor/ExtractionSetting.java:178-181 | sets one field and returns the same builder |
| Extraction.Builder.SetSamplingRate | main/src/main/java/io/github/pulsebeat02/minecraftmedialibrary/extractor/ExtractionSetting.java:189-192 | sets one field and returns the same builder |
| Extraction.Builder.SetVolume | main/src/main/java/io/github/pulsebeat02/minecraftmedialibrary/extractor/ExtractionSetting.java:200-203 | sets one field and returns the same builder |
| Extraction.Builder.Build | main/src/main/java/io/github/pulsebeat02/minecraftmedialibrary/extractor/ExtractionSetting.java:210-212 | the checking constructor on the builder's values: the same error cases and the same result |
| Extraction.BuildDefaults | main/src/main/java/io/github/pulsebeat02/minecraftmedialibrary/extractor/ExtractionSetting.java:152-212 | an untouched builder always builds, giving the default setting |
| MapImages.NewMapImage | MinecraftMediaLibrary/src/main/java/com/github/pulsebeat02/minecraftmedialibrary/image/MapImage.java:48-61 | the getters return the constructor's arguments, with width and height in the constructor's order |
| MapImages.Serialize | MinecraftMediaLibrary/src/main/java/com/github/pulsebeat02/minecraftmedialibrary/image/MapImage.java:136-143 | the section has exactly the keys map, image, width and height |
| MapImages.ParseInt | MinecraftMediaLibrary/src/main/java/com/github/pulsebeat02/minecraftmedialibrary/image/MapImage.java:99-102 | a parsed value fits an int, and the empty string does not parse |
| MapImages.NatString | MinecraftMediaLibrary/src/main/java/com/github/pulsebeat02/minecraftmedialibrary/image/MapImage.java:100 | the decimal digits of a natural number form a non-empty digit string |
| MapImages.NatStringValue | MinecraftMediaLibrary/src/main/java/com/github/pulsebeat02/minecraftmedialibrary/image/MapImage.java:99-102 | the digits of n read back as n |
| MapImages.ParseDecimal | MinecraftMediaLibrary/src/main/java/com/github/pulsebeat02/minecraftmedialibrary/image/MapImage.java:99-102 | `Integer.parseInt(Integer.toString(n)) == n` for every int |
| MapImages.ToInt | MinecraftMediaLibrary/src/main/java/com/github/pulsebeat02/minecraftmedialibrary/image/MapImage.java:99-102 | `NumberConversions.toInt` always yields an int, and 0 for a missing key |
| MapImages.DeserializeSerialize | MinecraftMediaLibrary/src/main/java/com/github/pulsebeat02/minecraftmedialibrary/image/MapImage.java:94-143 | storing and reading back keeps the map id and both sizes, and the image becomes the file at its absolute path, which resolves to the same path again |
| MapImages.DeserializeSerializeAbsolute | MinecraftMediaLibrary/src/main/java/com/github/pulsebeat02/minecraftmedialibrary/image/MapImage.java:94-143 | a map image with an absolute image path survives the round trip unchanged |
| MapImages.DeserializeEmpty | MinecraftMediaLibrary/src/main/java/com/github/pulsebeat02/minecraftmedialibrary/image/MapImage.java:94-103 | an empty section gives map 0, size 0 x 0, and the file named "null" |
| MapImages.Builder.constructor | MinecraftMediaLibrary/src/main/java/com/github/pulsebeat02/minecraftmedialibrary/image/MapImage.java:190-195 | fields start at 0 and a null image |
| MapImages.Builder.SetMap | MinecraftMediaLibrary/src/main/java/com/github/pulsebeat02/minecraftmedialibrary/image/MapImage.java:203-206 | sets one field and returns the same builder |
| MapImages.Builder.SetImage | MinecraftMediaLibrary/src/main/java/com/github/pulsebeat02/minecraftmedialibrary/image/MapImage.java:214-217 | sets one field and returns the same builder |
| MapImages.Builder.SetHeight | MinecraftMediaLibrary/src/main/java/com/github/pulsebeat02/minecraftmedialibrary/image/MapImage.java:225-228 | sets one field and returns the same builder |
| MapImages.Builder.SetWidth | MinecraftMediaLibrary/src/main/java/com/github/pulsebeat02/minecraftmedialibrary/image/MapImage.java:236-239 | sets one field and returns the same builder |
| MapImages.Builder.CreateImageMap | MinecraftMediaLibrary/src/main/java/com/github/pulsebeat02/minecraftmedialibrary/image/MapImage.java:247-249 | fails exactly without an image (the log line dereferences it); otherwise the getters return the builder's values |

## Left out

- Concurrency: the fork/join tasks of the static tables are modelled as sequential loops. The concurrent hash maps and the thread-local random generator are left out too.
- Floating point: the colour distance is its exact integer form scaled by 512. Float rounding, which could break a near tie differently, is not modelled.
- `ditherIntoMinecraftNatively` (DitherLibC) is foreign code and is not modelled.
- `MinecraftMapPalette.getColor`, `MapPalette.getColor(...).getRGB()`, the random offsets, the clock, the MurmurHash3 seed hash, the remapper, the ASM class rewriting and the online players are parameters.
- Java `int` overflow in the tile, index and chat-row arithmetic is not modelled; those computations use unbounded integers.
- InterceptorV1_16.NMSMapPacketInterceptor.DisplayMaps: a null slot of the packet array is handed to the connection as a placeholder descriptor; what the server's network layer then does with a null packet is not modelled.
- InterceptorV1_18.NMSMapPacketInterceptor.DisplayMaps: a null slot is handed on as a placeholder descriptor in the same way; what `connection.a(null)` does is not modelled.
- RandomDithering.RandomDither.StandardMinecraftDither: the buffer allocated before the throw is returned with the failure flag; in the Java code nothing is returned.
- The frame's `videoWidth > 0` and the dither width `width != 0` are required by the model. Where the Java code would divide by zero it throws an `ArithmeticException`, which is not modelled.
- Hash-set and hash-map iteration orders (`connections.keySet()`, the listener's `uuids`) are explicit sequences.
- Netty channels, pipeline handlers, reflection (`UnsafeUtils.setFinalField`), `PACKET_DIFFERENTIATION`, and the pass-through `onPacketInterceptOut` / `onPacketInterceptIn` are not modelled.
- Chat component rendering is not modelled: `ChatColor.of("#" + hex)` text, `CraftChatMessage.fromString` and `ChatHexColor`. A chat line is a sequence of colour and character tokens.
- `displayScoreboard` (1.16) is not modelled.
- `displayChat` of the 1.18 interceptor is not modelled: it depends on `createChatComponent`, which is not part of this model.
- PacketDelivery.BlockPositionFields: states the three packed fields through the masks of their `long` forms, not as signed coordinates.
- Xoroshiro: `nextDouble`, `nextFloat`, `nextInt(n)` and `nextGaussian` are not modelled. The double and float scaling is floating point, and the other two defer to `java.util.Random`.
- Xoroshiro.TopBitsBound: the range `[0, 2^bits)` is proved only for `1 <= bits < 32`. `bits == 32` is covered by TopBitsAll; other values are outside `next`'s contract.
- JarRelocator: the jar streams, the `ZipException` on a duplicate entry name, I/O exceptions, and the `RuntimeException` wrapping a failing class rewrite are not modelled. `relocate` is a total function.
- ResourcepackListener: Bukkit event registration and scheduling become the `timers` counter and the `unregistrations` log. The pending set is the listener's own field; the aliasing through which the caller's set shrinks with it is not modelled.
- ResourcepackListener and StaticDither: log output (`Logger.info`) is a `notices` record for the listener and is left out elsewhere.
- MapImages: the URL constructor is not modelled, because `FileUtilities.downloadImageFile` is not part of this model. `drawImage` is not modelled, because `FloydImageDither` and `VideoUtilities` are not part of this model.
- MapImages: `resetMap` and the library handle are not modelled.
- MapImages: non-integer `Number` values in a configuration section are not modelled.
- MapImages.ParseInt: accepts ASCII digits only; Java also accepts other Unicode decimal digits.
- Mrl.StringHash: takes characters as whole code points. Java hashes UTF-16 code units, so strings with supplementary characters hash differently.
- Mrl: `setupInput` does nothing in the Java code and is not modelled.
- Extraction: `toString` (Gson JSON) is not modelled.
- Extraction: the four properties are unbounded integers, since every check and setter passes values through unchanged.

## Findings

| source | as written | input that shows it | evidently intended | confidence | as-written member | corrected member |
|---|---|---|---|---|---|---|
| v1_16_R3/src/main/java/io/github/pulsebeat02/ezmediacore/nms/impl/v1_16_R3/NMSMapPacketInterceptor.java:191-192 | the packet array gets `(xLoopMax - xLoopMin) * (yLoopMax - yLoopMin)` slots, a product of two differences that go negative when the video lies off the grid; the 1.18 interceptor repeats it at lines 119-120 | a 1 x 1 grid, a 128 x 128 video, `xOff = 300`, `yOff = 0`: the size is -1 (NegativeArraySizeException). With `yOff = 300` as well the size is 1, and that slot stays null | one slot per visited map, that is `max(0, xLoopMax - xLoopMin) * max(0, yLoopMax - yLoopMin)`, and nothing sent for a video off the grid | medium, not executed | TileCompositor.OffGridAllocationIsNegative | TileCompositor.Tiles |
| api/src/main/java/io/github/pulsebeat02/ezmediacore/random/Xoroshiro128PlusRandom.java:50 | `long rnd = this.nextInt()` widens a 32-bit draw, so the upper four of the eight bytes taken from it copy its sign | `nextBytes` on an 8-byte array, from any state: bytes 4 to 7 are `00 00 00 00` or `FF FF FF FF` | eight bytes from each whole 64-bit draw, `long rnd = this.nextLong()` | high, not executed | Xoroshiro.FilledHighBytesAreSign | Xoroshiro.DrawnGroupIsTheDraw |
