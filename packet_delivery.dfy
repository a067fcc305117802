/**
 * What both packet interceptors share besides the tile compositor: the packets they
 * build, the per-viewer delivery loop with its `lastUpdated` rate limit, the packed
 * block position of the debug marker, the colour run-length rule of chat lines and the
 * row split of entity name lines.
 *
 * Sending a packet over a player's connection is modelled as appending a `Sent` record
 * to a log; a `PlayerConnection` is modelled by the presence of the viewer's id in the
 * set of connected ids.
 */
module PacketDelivery {
  import opened Wrappers
  import opened JavaTypes
  import opened TileCompositor

  /** A player's UUID. */
  type Uuid = int

  /** `PACKET_THRESHOLD_MS`: a viewer is served again once more than this many ms passed. */
  const PACKET_THRESHOLD_MS: int := 0

  /** A piece of a chat line: a colour code, or one copy of the line's character. */
  datatype ChatToken = Colour(rgb: int) | Glyph(text: string)

  datatype Packet =
    | MapUpdate(tile: MapPacket)
    | DebugMarker(position: bv64, color: int, time: int)
    | EntityMetadata(entityId: int, glyph: string, colours: seq<int>)
    | Chat(line: seq<ChatToken>)

  /** One packet handed to the connection of player `to`. */
  datatype Sent = Sent(to: Uuid, packet: Packet)

  /**
   * How one batch is delivered: `connections` are the ids with a connection, `now` the
   * clock, `limited` whether the `lastUpdated` rule applies, and `strict` whether a missing
   * connection is dereferenced anyway (a NullPointerException once a packet is sent).
   */
  datatype Route = Route(connections: set<Uuid>, now: int, batch: seq<Packet>, limited: bool, strict: bool)

  /** The interceptor state delivery changes, and whether an exception ended it. */
  datatype Outbox = Outbox(lastUpdated: map<Uuid, int>, log: seq<Sent>, crashed: bool)

  /** `now - lastUpdated.getOrDefault(uuid, 0L) > PACKET_THRESHOLD_MS`. */
  predicate RateOk(last: map<Uuid, int>, u: Uuid, now: int)
  {
    now - GetOrDefault(last, u, 0) > PACKET_THRESHOLD_MS
  }

  /** `for (packet : batch) connection.sendPacket(packet)`, as log records. */
  function SendAll(u: Uuid, batch: seq<Packet>): seq<Sent>
  {
    if |batch| == 0 then [] else SendAll(u, batch[..|batch| - 1]) + [Sent(u, batch[|batch| - 1])]
  }

  /** Serving one target. */
  function Step(o: Outbox, u: Uuid, r: Route): Outbox
  {
    if o.crashed then o
    else if r.limited && !RateOk(o.lastUpdated, u, r.now) then o
    else
      var last := if r.limited then o.lastUpdated[u := r.now] else o.lastUpdated;
      if u in r.connections then Outbox(last, o.log + SendAll(u, r.batch), false)
      else Outbox(last, o.log, r.strict && |r.batch| > 0)
  }

  /** Serving the targets in order. */
  function Deliver(o: Outbox, targets: seq<Uuid>, r: Route): Outbox
  {
    if |targets| == 0 then o
    else Step(Deliver(o, targets[..|targets| - 1], r), targets[|targets| - 1], r)
  }

  /** The packets the log hands to player u, in order. */
  function Received(log: seq<Sent>, u: Uuid): seq<Packet>
  {
    if |log| == 0 then []
    else Received(log[..|log| - 1], u) + (if log[|log| - 1].to == u then [log[|log| - 1].packet] else [])
  }

  lemma {:induction false} ReceivedAppend(a: seq<Sent>, b: seq<Sent>, u: Uuid)
    ensures Received(a + b, u) == Received(a, u) + Received(b, u)
    decreases |b|
  {
    if |b| == 0 {
      assert a + b == a;
    } else {
      var b' := b[..|b| - 1];
      assert (a + b)[..|a + b| - 1] == a + b';
      ReceivedAppend(a, b', u);
    }
  }

  /** A batch sent to v reaches v whole and nobody else. */
  lemma {:induction false} ReceivedSendAll(v: Uuid, batch: seq<Packet>, u: Uuid)
    ensures Received(SendAll(v, batch), u) == if u == v then batch else []
    decreases |batch|
  {
    if |batch| > 0 {
      var b' := batch[..|batch| - 1];
      ReceivedSendAll(v, b', u);
      ReceivedAppend(SendAll(v, b'), [Sent(v, batch[|batch| - 1])], u);
      assert Received([Sent(v, batch[|batch| - 1])], u) == if u == v then [batch[|batch| - 1]] else [] by {
        assert [Sent(v, batch[|batch| - 1])][..0] == [];
      }
      if u == v {
        assert b' + [batch[|batch| - 1]] == batch;
      }
    }
  }

  /** An exception ends delivery: every later target is skipped. */
  lemma {:induction false} CrashIsFinal(o: Outbox, targets: seq<Uuid>, r: Route, i: nat)
    requires i <= |targets| && Deliver(o, targets[..i], r).crashed
    ensures Deliver(o, targets, r) == Deliver(o, targets[..i], r)
    decreases |targets| - i
  {
    if i < |targets| {
      assert targets[..i + 1][..i] == targets[..i];
      CrashIsFinal(o, targets, r, i + 1);
    } else {
      assert targets[..i] == targets;
    }
  }

  /** The viewers a rate-limited delivery stamps: listed, and due under the old stamps. */
  ghost function Due(last: map<Uuid, int>, targets: seq<Uuid>, now: int): set<Uuid>
  {
    set u | u in targets && RateOk(last, u, now)
  }

  /** The `lastUpdated` map after a rate-limited delivery: every due viewer gets `now`. */
  ghost function Stamped(last: map<Uuid, int>, targets: seq<Uuid>, now: int): map<Uuid, int>
  {
    map u | u in last.Keys + Due(last, targets, now) :: if u in Due(last, targets, now) then now else last[u]
  }

  /** A listed viewer is due again only if it was due before and not yet stamped. */
  lemma StampedRate(last: map<Uuid, int>, t: seq<Uuid>, v: Uuid, now: int)
    ensures RateOk(Stamped(last, t, now), v, now) == (v !in Due(last, t, now) && RateOk(last, v, now))
  {
    var due := Due(last, t, now);
    var m := Stamped(last, t, now);
    if v in due {
      assert m[v] == now;
    } else if v in last {
      assert m[v] == last[v];
    } else {
      assert v !in m;
    }
  }

  /** Listing one more viewer stamps it when it is due and not yet stamped. */
  lemma StampedStep(last: map<Uuid, int>, t: seq<Uuid>, v: Uuid, now: int)
    ensures var isNew := v !in Due(last, t, now) && RateOk(last, v, now);
      Stamped(last, t + [v], now) == if isNew then Stamped(last, t, now)[v := now] else Stamped(last, t, now)
  {
    var due := Due(last, t, now);
    var due' := Due(last, t + [v], now);
    assert due' == due + (if RateOk(last, v, now) then {v} else {}) by {
      forall u ensures u in due' <==> u in due || (u == v && RateOk(last, v, now)) {
        assert u in t + [v] <==> u in t || u == v;
      }
    }
  }

  /** A rate-limited delivery that ends normally stamps exactly the due viewers with `now`. */
  lemma {:induction false} RateLimitedStamps(o: Outbox, targets: seq<Uuid>, r: Route)
    requires r.limited && !o.crashed && !Deliver(o, targets, r).crashed
    ensures Deliver(o, targets, r).lastUpdated == Stamped(o.lastUpdated, targets, r.now)
    decreases |targets|
  {
    var last := o.lastUpdated;
    if |targets| == 0 {
      assert Due(last, targets, r.now) == {};
      assert Stamped(last, targets, r.now) == last;
    } else {
      var t' := targets[..|targets| - 1];
      var v := targets[|targets| - 1];
      assert targets == t' + [v];
      RateLimitedStamps(o, t', r);
      StampedRate(last, t', v, r.now);
      StampedStep(last, t', v, r.now);
    }
  }

  /**
   * Each connected viewer a rate-limited delivery finds due receives the batch exactly
   * once, however often it is listed; nobody else receives anything.
   */
  lemma {:induction false} RateLimitedReceived(o: Outbox, targets: seq<Uuid>, r: Route, u: Uuid)
    requires r.limited && !o.crashed && !Deliver(o, targets, r).crashed
    ensures Received(Deliver(o, targets, r).log, u) == Received(o.log, u) +
      (if u in Due(o.lastUpdated, targets, r.now) && u in r.connections then r.batch else [])
    decreases |targets|
  {
    var last := o.lastUpdated;
    if |targets| > 0 {
      var t' := targets[..|targets| - 1];
      var v := targets[|targets| - 1];
      assert targets == t' + [v];
      var d := Deliver(o, t', r);
      RateLimitedReceived(o, t', r, u);
      RateLimitedStamps(o, t', r);
      StampedRate(last, t', v, r.now);
      StepReceived(d, v, r, u);
      var due', due := Due(last, t', r.now), Due(last, targets, r.now);
      assert u in due <==> u in due' || (u == v && RateOk(last, v, r.now));
    }
  }

  /** One rate-limited step hands the batch to the served viewer alone, if it is connected. */
  lemma StepReceived(d: Outbox, v: Uuid, r: Route, u: Uuid)
    requires r.limited && !d.crashed && !Step(d, v, r).crashed
    ensures Received(Step(d, v, r).log, u) == Received(d.log, u) +
      (if RateOk(d.lastUpdated, v, r.now) && v in r.connections && u == v then r.batch else [])
  {
    if RateOk(d.lastUpdated, v, r.now) && v in r.connections {
      ReceivedAppend(d.log, SendAll(v, r.batch), u);
      ReceivedSendAll(v, r.batch, u);
    }
  }

  /**
   * Delivery fails exactly when it is strict, the batch is not empty and some listed
   * viewer without a connection is served (due, when rate-limited).
   */
  lemma {:induction false} DeliveryCrashes(o: Outbox, targets: seq<Uuid>, r: Route)
    requires !o.crashed
    ensures Deliver(o, targets, r).crashed <==>
      r.strict && |r.batch| > 0 &&
      exists u :: u in targets && u !in r.connections && (!r.limited || RateOk(o.lastUpdated, u, r.now))
    decreases |targets|
  {
    if |targets| > 0 {
      var t' := targets[..|targets| - 1];
      var v := targets[|targets| - 1];
      assert targets == t' + [v];
      DeliveryCrashes(o, t', r);
      var d := Deliver(o, t', r);
      if !d.crashed && r.limited {
        RateLimitedStamps(o, t', r);
        StampedRate(o.lastUpdated, t', v, r.now);
      }
    }
  }

  /** How often u is listed. */
  function Occurrences(targets: seq<Uuid>, u: Uuid): nat
  {
    if |targets| == 0 then 0
    else Occurrences(targets[..|targets| - 1], u) + (if targets[|targets| - 1] == u then 1 else 0)
  }

  /** The batch n times over. */
  function Repeat(batch: seq<Packet>, n: nat): seq<Packet>
  {
    if n == 0 then [] else Repeat(batch, n - 1) + batch
  }

  /**
   * Without the rate limit (entity lines, chat, the 1.18 debug marker) `lastUpdated` is
   * untouched and a connected viewer receives the batch once per time it is listed.
   */
  lemma {:induction false} UnlimitedDelivery(o: Outbox, targets: seq<Uuid>, r: Route)
    requires !r.limited && !o.crashed && !Deliver(o, targets, r).crashed
    ensures Deliver(o, targets, r).lastUpdated == o.lastUpdated
    ensures forall u :: (Received(Deliver(o, targets, r).log, u) == Received(o.log, u) +
      (if u in r.connections then Repeat(r.batch, Occurrences(targets, u)) else []))
    decreases |targets|
  {
    if |targets| > 0 {
      var t' := targets[..|targets| - 1];
      var v := targets[|targets| - 1];
      var d := Deliver(o, t', r);
      assert !d.crashed;
      UnlimitedDelivery(o, t', r);
      var e := Deliver(o, targets, r);
      forall u
        ensures Received(e.log, u) == Received(o.log, u) +
          (if u in r.connections then Repeat(r.batch, Occurrences(targets, u)) else [])
      {
        if v in r.connections {
          ReceivedAppend(d.log, SendAll(v, r.batch), u);
          ReceivedSendAll(v, r.batch, u);
        }
      }
    }
  }

  /** Without the rate limit no viewer is stamped, whether or not the delivery throws. */
  lemma {:induction false} UnlimitedKeepsStamps(o: Outbox, targets: seq<Uuid>, r: Route)
    requires !r.limited
    ensures Deliver(o, targets, r).lastUpdated == o.lastUpdated
    decreases |targets|
  {
    if |targets| > 0 {
      UnlimitedKeepsStamps(o, targets[..|targets| - 1], r);
    }
  }

  /** The inner `for (packet : batch)` loop. */
  method SendBatch(log: seq<Sent>, u: Uuid, batch: seq<Packet>) returns (log': seq<Sent>)
    ensures log' == log + SendAll(u, batch)
  {
    log' := log;
    for k := 0 to |batch|
      invariant log' == log + SendAll(u, batch[..k])
    {
      assert batch[..k + 1][..k] == batch[..k];
      log' := log' + [Sent(u, batch[k])];
    }
    assert batch[..|batch|] == batch;
  }

  /**
   * The delivery loop over the targets, as each interceptor writes it: check and stamp
   * `lastUpdated` when rate-limited, then send the batch over the viewer's connection,
   * skipping or (strict) failing on a missing one.
   */
  method DeliverLoop(o: Outbox, targets: seq<Uuid>, r: Route) returns (res: Outbox)
    requires !o.crashed
    ensures res == Deliver(o, targets, r)
  {
    res := o;
    var i := 0;
    while i < |targets|
      invariant 0 <= i <= |targets| && !res.crashed
      invariant res == Deliver(o, targets[..i], r)
    {
      var u := targets[i];
      assert targets[..i + 1][..i] == targets[..i];
      if !r.limited || r.now - GetOrDefault(res.lastUpdated, u, 0) > PACKET_THRESHOLD_MS {
        var last := res.lastUpdated;
        if r.limited {
          last := last[u := r.now];
        }
        if u in r.connections {
          var log := SendBatch(res.log, u, r.batch);
          res := Outbox(last, log, false);
        } else if r.strict && |r.batch| > 0 {
          res := Outbox(last, res.log, true);
          CrashIsFinal(o, targets, r, i + 1);
          return;
        } else {
          res := Outbox(last, res.log, false);
        }
      }
      i := i + 1;
    }
    assert targets[..i] == targets;
  }

  // ---------------------------------------------------------------------------
  // The debug marker's packed block position.

  const MASK_26: bv64 := 0x3FF_FFFF

  /** `((long) x & 67108863L) << 38 | (long) y & 4095L | ((long) z & 67108863L) << 12`. */
  function BlockPosition(x: bv32, y: bv32, z: bv32): bv64
  {
    ((LongOf(x) & MASK_26) << 38) | (LongOf(y) & 4095) | ((LongOf(z) & MASK_26) << 12)
  }

  lemma MaskBounds(w: bv64)
    ensures w & MASK_26 <= MASK_26 && w & 4095 < 4096
  {
  }

  /** Three fields of 26, 12 and 26 bits, placed at bits 38, 0 and 12, do not overlap. */
  lemma PackedFields(a: bv64, b: bv64, c: bv64)
    requires a <= MASK_26 && b < 4096 && c <= MASK_26
    ensures ((a << 38) | b | (c << 12)) >> 38 == a
    ensures ((a << 38) | b | (c << 12)) & 4095 == b
    ensures (((a << 38) | b | (c << 12)) >> 12) & MASK_26 == c
  {
  }

  /**
   * The three fields occupy disjoint bits: the low 26 bits of x, the low 12 bits of y and
   * the low 26 bits of z can be read back.
   */
  lemma BlockPositionFields(x: bv32, y: bv32, z: bv32)
    ensures BlockPosition(x, y, z) >> 38 == LongOf(x) & MASK_26
    ensures BlockPosition(x, y, z) & 4095 == LongOf(y) & 4095
    ensures (BlockPosition(x, y, z) >> 12) & MASK_26 == LongOf(z) & MASK_26
  {
    var a, b, c := LongOf(x) & MASK_26, LongOf(y) & 4095, LongOf(z) & MASK_26;
    MaskBounds(LongOf(x));
    MaskBounds(LongOf(y));
    MaskBounds(LongOf(z));
    PackedFields(a, b, c);
  }

  // ---------------------------------------------------------------------------
  // Chat lines: one colour code before every pixel whose colour differs from the previous one.

  /** The colour compared against pixel i: `before`, which starts at -1. */
  function Before(row: seq<int>, i: int): int
    requires 0 <= i < |row|
  {
    if i == 0 then -1 else row[i - 1]
  }

  /** The tokens the inner loop appends for pixel i. */
  function PixelTokens(row: seq<int>, i: int, character: string): seq<ChatToken>
    requires 0 <= i < |row|
  {
    (if row[i] != Before(row, i) then [Colour(row[i])] else []) + [Glyph(character)]
  }

  /** The message of one chat row. */
  function Line(row: seq<int>, character: string): seq<ChatToken>
  {
    if |row| == 0 then [] else Line(row[..|row| - 1], character) + PixelTokens(row, |row| - 1, character)
  }

  function Glyphs(tokens: seq<ChatToken>): nat
  {
    if |tokens| == 0 then 0 else Glyphs(tokens[..|tokens| - 1]) + (if tokens[|tokens| - 1].Glyph? then 1 else 0)
  }

  lemma {:induction false} GlyphsAppend(a: seq<ChatToken>, b: seq<ChatToken>)
    ensures Glyphs(a + b) == Glyphs(a) + Glyphs(b)
    decreases |b|
  {
    if |b| == 0 {
      assert a + b == a;
    } else {
      assert (a + b)[..|a + b| - 1] == a + b[..|b| - 1];
      GlyphsAppend(a, b[..|b| - 1]);
    }
  }

  /** A row of `width` pixels yields exactly `width` copies of the character. */
  lemma {:induction false} LineGlyphCount(row: seq<int>, character: string)
    ensures Glyphs(Line(row, character)) == |row|
    decreases |row|
  {
    if |row| > 0 {
      var i := |row| - 1;
      LineGlyphCount(row[..i], character);
      GlyphsAppend(Line(row[..i], character), PixelTokens(row, i, character));
      var c := if row[i] != Before(row, i) then [Colour(row[i])] else [];
      GlyphsAppend(c, [Glyph(character)]);
      assert [Glyph(character)][..0] == [];
      if c != [] {
        assert c[..0] == [];
      }
    }
  }

  /** What a client shows: each glyph drawn in the last colour code before it (`-1` at first). */
  function Shown(tokens: seq<ChatToken>, current: int): seq<int>
  {
    if |tokens| == 0 then []
    else match tokens[0]
      case Colour(c) => Shown(tokens[1..], c)
      case Glyph(_) => [current] + Shown(tokens[1..], current)
  }

  lemma {:induction false} ShownAppend(a: seq<ChatToken>, b: seq<ChatToken>, current: int)
    ensures Shown(a + b, current) == Shown(a, current) + Shown(b, LastColour(a, current))
    decreases |a|
  {
    if |a| == 0 {
      assert a + b == b;
    } else {
      assert (a + b)[0] == a[0] && (a + b)[1..] == a[1..] + b;
      match a[0]
      case Colour(c) => ShownAppend(a[1..], b, c);
      case Glyph(_) => ShownAppend(a[1..], b, current);
    }
  }

  /** The colour in force after the tokens. */
  function LastColour(tokens: seq<ChatToken>, current: int): int
  {
    if |tokens| == 0 then current
    else match tokens[0]
      case Colour(c) => LastColour(tokens[1..], c)
      case Glyph(_) => LastColour(tokens[1..], current)
  }

  /**
   * A chat line reproduces its row: drawing each glyph in the colour last set gives back
   * every pixel, and the colour in force at the end is the last pixel's.
   */
  lemma {:induction false} LineShowsRow(row: seq<int>, character: string)
    ensures Shown(Line(row, character), -1) == row
    ensures |row| > 0 ==> LastColour(Line(row, character), -1) == row[|row| - 1]
    decreases |row|
  {
    if |row| > 0 {
      var i := |row| - 1;
      var prefix := row[..i];
      LineShowsRow(prefix, character);
      var head := Line(prefix, character);
      assert LastColour(head, -1) == Before(row, i) by {
        if i > 0 {
          assert prefix[|prefix| - 1] == row[i - 1];
        }
      }
      var tail := PixelTokens(row, i, character);
      ShownAppend(head, tail, -1);
      LastColourAppend(head, tail, -1);
      assert Shown(tail, Before(row, i)) == [row[i]] && LastColour(tail, Before(row, i)) == row[i] by {
        var g := [Glyph(character)];
        assert g[1..] == [];
        assert Shown(g, row[i]) == [row[i]] && LastColour(g, row[i]) == row[i];
        if row[i] != Before(row, i) {
          assert tail == [Colour(row[i])] + g;
          assert tail[1..] == g;
        } else {
          assert tail == g;
        }
      }
      assert prefix + [row[i]] == row;
    }
  }

  lemma {:induction false} LastColourAppend(a: seq<ChatToken>, b: seq<ChatToken>, current: int)
    ensures LastColour(a + b, current) == LastColour(b, LastColour(a, current))
    decreases |a|
  {
    if |a| == 0 {
      assert a + b == b;
    } else {
      assert (a + b)[0] == a[0] && (a + b)[1..] == a[1..] + b;
      match a[0]
      case Colour(c) => LastColourAppend(a[1..], b, c);
      case Glyph(_) => LastColourAppend(a[1..], b, current);
    }
  }

  /** The chat loop for one row, tracking `before`. */
  method ChatLine(row: seq<int>, character: string) returns (msg: seq<ChatToken>)
    ensures msg == Line(row, character)
  {
    var before := -1;
    msg := [];
    for x := 0 to |row|
      invariant msg == Line(row[..x], character)
      invariant before == if x == 0 then -1 else row[x - 1]
    {
      assert row[..x + 1][..x] == row[..x];
      var rgb := row[x];
      if before != rgb {
        msg := msg + [Colour(rgb)];
      }
      msg := msg + [Glyph(character)];
      before := rgb;
    }
    assert row[..|row|] == row;
  }

  // ---------------------------------------------------------------------------
  // Entity name lines.

  /** `c & 0xFFFFFF`: the colour's low 24 bits (Dafny's `%` never goes negative). */
  function Rgb24(c: int): (v: int)
    ensures 0 <= v < 0x100_0000
  {
    c % 0x100_0000
  }

  /** The colours of entity row i: data values `i * w` to `i * w + w - 1`, masked. */
  function EntityColours(data: seq<int>, w: nat, i: nat): (cs: seq<int>)
    requires (i + 1) * w <= |data|
    ensures |cs| == w
    ensures forall x :: 0 <= x < w ==> cs[x] == Rgb24(data[i * w + x])
  {
    assert i * w + w == (i + 1) * w;
    seq(w, x requires 0 <= x < w => Rgb24(data[i * w + x]))
  }

  /** Whether the first `rows` entity rows of `width` values each fit in `dataLen` values. */
  predicate EntityDataFits(dataLen: nat, width: int, rows: nat)
  {
    width <= 0 || rows * width <= dataLen
  }

  /** The colours of row i; a row with a non-positive width reads nothing. */
  function EntityRow(data: seq<int>, width: int, i: nat): (cs: seq<int>)
    requires EntityDataFits(|data|, width, i + 1)
    ensures |cs| == Max(width, 0)
  {
    if width <= 0 then [] else EntityColours(data, width, i)
  }

  /** One name-line packet per row, for the first `rows` entities. */
  function EntityBatch(entityIds: seq<int>, data: seq<int>, glyph: string, width: int, rows: nat): (b: seq<Packet>)
    requires rows <= |entityIds| && EntityDataFits(|data|, width, rows)
    ensures |b| == rows
    decreases rows
  {
    if rows == 0 then []
    else
      assert EntityDataFits(|data|, width, rows - 1) by {
        if width > 0 {
          MulMonoInt(rows - 1, rows, width);
        }
      }
      EntityBatch(entityIds, data, glyph, width, rows - 1) +
        [EntityMetadata(entityIds[rows - 1], glyph, EntityRow(data, width, rows - 1))]
  }

  /**
   * The first `min(height, #entities)` entities each get one packet whose line is row i of
   * the data, coloured value by value; nothing is built when the data runs out.
   */
  lemma {:induction false} EntityBatchRows(entityIds: seq<int>, data: seq<int>, glyph: string, width: int, rows: nat, i: int)
    requires rows <= |entityIds| && EntityDataFits(|data|, width, rows) && 0 <= i < rows
    ensures EntityDataFits(|data|, width, i + 1)
    ensures EntityBatch(entityIds, data, glyph, width, rows)[i] ==
      EntityMetadata(entityIds[i], glyph, EntityRow(data, width, i))
    decreases rows
  {
    if width > 0 {
      MulMonoInt(i + 1, rows, width);
      MulMonoInt(rows - 1, rows, width);
    }
    if i < rows - 1 {
      EntityBatchRows(entityIds, data, glyph, width, rows - 1, i);
    }
  }

  /** The inner loop of `displayEntities`: `width` values from `data[index++]`. */
  method ReadEntityRow(data: seq<int>, index: int, width: int) returns (colours: seq<int>, index': int, ok: bool)
    requires 0 <= index
    ensures ok <==> width <= 0 || index + width <= |data|
    ensures ok ==> index' == index + Max(width, 0)
    ensures ok ==> |colours| == Max(width, 0)
    ensures ok ==> forall x :: 0 <= x < |colours| ==> colours[x] == Rgb24(data[index + x])
  {
    colours := [];
    index' := index;
    var x := 0;
    while x < width
      invariant 0 <= x <= Max(width, 0) && index' == index + x && (x > 0 ==> index' <= |data|)
      invariant |colours| == x && forall x' :: 0 <= x' < x ==> colours[x'] == Rgb24(data[index + x'])
    {
      if index' >= |data| {
        return colours, index', false;
      }
      colours := colours + [Rgb24(data[index'])];
      index' := index' + 1;
      x := x + 1;
    }
    ok := true;
  }

  /**
   * The row split of `displayEntities`: `min(height, #entities)` packets, row i built from
   * data values `i * width` to `i * width + width - 1` by one running `index`. It fails
   * (`NegativeArraySizeException`, or reading past the data) exactly when that count is
   * negative or the data is too short.
   */
  method BuildEntityPackets(entityIds: seq<int>, data: seq<int>, glyph: string, width: int, height: int)
    returns (packets: seq<Packet>, ok: bool)
    ensures ok <==> 0 <= Min(height, |entityIds|) && EntityDataFits(|data|, width, Min(height, |entityIds|))
    ensures ok ==> packets == EntityBatch(entityIds, data, glyph, width, Min(height, |entityIds|))
  {
    var maxHeight := Min(height, |entityIds|);
    packets := [];
    if maxHeight < 0 {
      return packets, false;
    }
    var index := 0;
    for i := 0 to maxHeight
      invariant index == i * Max(width, 0) && index <= |data|
      invariant EntityDataFits(|data|, width, i) && packets == EntityBatch(entityIds, data, glyph, width, i)
    {
      var colours, ok';
      colours, index, ok' := ReadEntityRow(data, index, width);
      if !ok' {
        assert maxHeight * width >= (i + 1) * width by {
          MulMonoInt(i + 1, maxHeight, width);
        }
        return packets, false;
      }
      assert index == (i + 1) * Max(width, 0);
      assert colours == EntityRow(data, width, i);
      packets := packets + [EntityMetadata(entityIds[i], glyph, colours)];
    }
    ok := true;
  }

  /** The map-update packets of a descriptor array, in order. */
  function MapUpdates(tiles: seq<MapPacket>): (b: seq<Packet>)
    ensures |b| == |tiles| && forall k :: 0 <= k < |tiles| ==> b[k] == MapUpdate(tiles[k])
  {
    seq(|tiles|, k requires 0 <= k < |tiles| => MapUpdate(tiles[k]))
  }

  /** The ids of a connection list. */
  function Connected(cs: seq<Uuid>): (ids: set<Uuid>)
    ensures forall u :: u in ids <==> u in cs
  {
    set u | u in cs
  }

  /** Who a call serves: the listed viewers, or every connection when the array is null. */
  function Audience(viewers: Option<seq<Uuid>>, connections: seq<Uuid>): seq<Uuid>
  {
    match viewers
    case None => connections
    case Some(v) => v
  }

  /** Serving only connected ids never dereferences a missing connection. */
  lemma ConnectedNeverCrash(o: Outbox, cs: seq<Uuid>, r: Route)
    requires !o.crashed && r.connections == Connected(cs)
    ensures !Deliver(o, cs, r).crashed
  {
    DeliveryCrashes(o, cs, r);
  }

  // ---------------------------------------------------------------------------
  // The connection table: `connections.put` and `connections.remove`, with the key set in
  // iteration order.

  /** The key set after `connections.put(u, ...)`: unchanged when u is already a key. */
  function WithConnection(cs: seq<Uuid>, u: Uuid): (cs': seq<Uuid>)
    ensures Distinct(cs) ==> Distinct(cs')
    ensures forall v :: v in cs' <==> v in cs || v == u
  {
    if u in cs then cs else cs + [u]
  }

  /** The key set after `connections.remove(u)`. */
  function WithoutConnection(cs: seq<Uuid>, u: Uuid): (cs': seq<Uuid>)
    ensures forall v :: v in cs' <==> v in cs && v != u
  {
    if |cs| == 0 then []
    else WithoutConnection(cs[..|cs| - 1], u) + (if cs[|cs| - 1] == u then [] else [cs[|cs| - 1]])
  }

  /** Removing a key keeps the key set free of duplicates. */
  lemma {:induction false} WithoutConnectionDistinct(cs: seq<Uuid>, u: Uuid)
    requires Distinct(cs)
    ensures Distinct(WithoutConnection(cs, u))
    decreases |cs|
  {
    if |cs| > 0 {
      var init := cs[..|cs| - 1];
      assert Distinct(init) by {
        forall i, j | 0 <= i < j < |init| ensures init[i] != init[j] {
          assert init[i] == cs[i] && init[j] == cs[j];
        }
      }
      WithoutConnectionDistinct(init, u);
      assert cs[|cs| - 1] !in init;
    }
  }
}
