/**
 * The 1.16 (v1_16_R3) packet interceptor: the connection table, the `lastUpdated` rate
 * limit, the map-id registry, and the display calls that compose map tiles, debug markers,
 * entity name lines and chat lines and hand them to the viewers' connections.
 *
 * Every packet handed to a connection is appended to `log`. A call that throws in the
 * Java code returns `false` here, keeping the state it had reached.
 */
module InterceptorV1_16 {
  import opened Wrappers
  import opened JavaTypes
  import opened TileCompositor
  import opened PacketDelivery

  /** The full block used for every pixel of an entity name line. */
  const FULL_BLOCK: string := "\U{2588}"

  /** `sendPacket` and the map delivery loops: rate-limited, a missing connection skipped. */
  function LimitedRoute(connections: seq<Uuid>, now: int, batch: seq<Packet>): Route
  {
    Route(Connected(connections), now, batch, true, false)
  }

  /**
   * Where the packet array of one `displayMaps` call goes, and the state it leaves: a
   * negative array size throws before anything is sent.
   */
  function MapsOutcome(o: Outbox, rgb: seq<int8>, p: Placement, targets: seq<Uuid>, connections: seq<Uuid>, now: int): Outbox
    requires PlacementOk(p) && FrameFits(p, |rgb|)
  {
    if AllocatedSlots(p) < 0 then o.(crashed := true)
    else Deliver(o, targets, LimitedRoute(connections, now, MapUpdates(PacketSlots(rgb, p))))
  }

  /** Whether row y of the chat data is in range: `data[width * y + x]` for every x. */
  predicate ChatRowFits(dataLen: nat, width: int, y: nat)
  {
    width <= 0 || width * y + width <= dataLen
  }

  /** The pixels of chat row y. */
  function ChatRow(data: seq<int>, width: int, y: nat): (row: seq<int>)
    requires ChatRowFits(|data|, width, y)
    ensures |row| == Max(width, 0)
    ensures forall x :: 0 <= x < |row| ==> 0 <= width * y + x < |data| && row[x] == data[width * y + x]
  {
    if width <= 0 then [] else
      assert 0 <= width * y;
      data[width * y .. width * y + width]
  }

  /**
   * The first `rows` rows of `displayChat`: each row's line goes to every viewer in turn, each
   * of whom must have a connection; a row past the data, or a null viewer array, throws.
   */
  ghost function ChatOutcome(o: Outbox, viewers: Option<seq<Uuid>>, connections: set<Uuid>, character: string,
                             data: seq<int>, width: int, rows: nat): Outbox
    decreases rows
  {
    if rows == 0 then o
    else
      var d := ChatOutcome(o, viewers, connections, character, data, width, rows - 1);
      if d.crashed then d else ChatStep(d, viewers, connections, character, data, width, rows - 1)
  }

  /** Row y of `displayChat`: build the line, then hand it to every viewer. */
  ghost function ChatStep(d: Outbox, viewers: Option<seq<Uuid>>, connections: set<Uuid>, character: string,
                          data: seq<int>, width: int, y: nat): Outbox
  {
    if !ChatRowFits(|data|, width, y) || viewers.None? then d.(crashed := true)
    else
      var line := Line(ChatRow(data, width, y), character);
      Deliver(d, viewers.value, Route(connections, 0, [Chat(line)], false, true))
  }

  /** The body of the y loop of `displayChat`. */
  method ChatRowCall(d: Outbox, viewers: Option<seq<Uuid>>, connections: set<Uuid>, character: string,
                     data: seq<int>, width: int, y: nat) returns (d': Outbox)
    requires !d.crashed
    ensures d' == ChatStep(d, viewers, connections, character, data, width, y)
  {
    if !(width <= 0 || width * y + width <= |data|) || viewers.None? {
      return d.(crashed := true);
    }
    var msg := ChatLine(ChatRow(data, width, y), character);
    d' := DeliverLoop(d, viewers.value, Route(connections, 0, [Chat(msg)], false, true));
  }

  lemma ChatOutcomeNext(o: Outbox, viewers: Option<seq<Uuid>>, connections: set<Uuid>, character: string,
                        data: seq<int>, width: int, y: nat)
    requires !ChatOutcome(o, viewers, connections, character, data, width, y).crashed
    ensures ChatOutcome(o, viewers, connections, character, data, width, y + 1) ==
      ChatStep(ChatOutcome(o, viewers, connections, character, data, width, y), viewers, connections, character, data, width, y)
  {
  }

  /** A failed chat row stops the call: later rows send nothing. */
  lemma {:induction false} ChatCrashIsFinal(o: Outbox, viewers: Option<seq<Uuid>>, connections: set<Uuid>,
                                            character: string, data: seq<int>, width: int, rows: nat, more: nat)
    requires rows <= more && ChatOutcome(o, viewers, connections, character, data, width, rows).crashed
    ensures ChatOutcome(o, viewers, connections, character, data, width, more) ==
      ChatOutcome(o, viewers, connections, character, data, width, rows)
    decreases more - rows
  {
    if rows < more {
      ChatCrashIsFinal(o, viewers, connections, character, data, width, rows, more - 1);
    }
  }

  /**
   * A chat call whose viewers all have connections, over data long enough for every row,
   * throws nowhere and leaves `lastUpdated` alone.
   */
  lemma {:induction false} ChatSendsEveryRow(o: Outbox, viewers: seq<Uuid>, connections: set<Uuid>,
                                             character: string, data: seq<int>, width: int, rows: nat)
    requires !o.crashed && forall v :: v in viewers ==> v in connections
    requires forall y: nat :: y < rows ==> ChatRowFits(|data|, width, y)
    ensures !ChatOutcome(o, Some(viewers), connections, character, data, width, rows).crashed
    ensures ChatOutcome(o, Some(viewers), connections, character, data, width, rows).lastUpdated == o.lastUpdated
    decreases rows
  {
    if rows > 0 {
      var y := rows - 1;
      assert forall k: nat :: k < y ==> ChatRowFits(|data|, width, k);
      ChatSendsEveryRow(o, viewers, connections, character, data, width, y);
      var d := ChatOutcome(o, Some(viewers), connections, character, data, width, y);
      ChatOutcomeNext(o, Some(viewers), connections, character, data, width, y);
      assert ChatRowFits(|data|, width, y);
      ChatRowDelivered(d, viewers, connections, character, data, width, y);
    }
  }

  /** One chat row on connected viewers is sent and leaves `lastUpdated` alone. */
  lemma ChatRowDelivered(d: Outbox, viewers: seq<Uuid>, connections: set<Uuid>, character: string,
                         data: seq<int>, width: int, y: nat)
    requires !d.crashed && (forall v :: v in viewers ==> v in connections) && ChatRowFits(|data|, width, y)
    ensures !ChatStep(d, Some(viewers), connections, character, data, width, y).crashed
    ensures ChatStep(d, Some(viewers), connections, character, data, width, y).lastUpdated == d.lastUpdated
  {
    var r := Route(connections, 0, [Chat(Line(ChatRow(data, width, y), character))], false, true);
    DeliveryCrashes(d, viewers, r);
    UnlimitedDelivery(d, viewers, r);
  }

  /** The y loop of `displayChat`, stopping at the first row that throws. */
  method ChatRows(o: Outbox, viewers: Option<seq<Uuid>>, connections: set<Uuid>, character: string,
                  data: seq<int>, width: int, height: int) returns (res: Outbox)
    requires !o.crashed
    ensures res == ChatOutcome(o, viewers, connections, character, data, width, Max(height, 0))
  {
    var rows: nat := Max(height, 0);
    res := o;
    var y: nat := 0;
    while y < rows
      invariant y <= rows && !res.crashed
      invariant res == ChatOutcome(o, viewers, connections, character, data, width, y)
    {
      ChatOutcomeNext(o, viewers, connections, character, data, width, y);
      res := ChatRowCall(res, viewers, connections, character, data, width, y);
      if res.crashed {
        ChatCrashIsFinal(o, viewers, connections, character, data, width, y + 1, rows);
        return;
      }
      y := y + 1;
    }
  }

  class NMSMapPacketInterceptor {
    /** The keys of `connections`, in the map's iteration order. */
    var connections: seq<Uuid>
    var lastUpdated: map<Uuid, int>
    var maps: set<int>
    /** Every packet handed to a connection so far. */
    var log: seq<Sent>

    ghost predicate Valid()
      reads this
    {
      Distinct(connections)
    }

    constructor()
      ensures Valid()
      ensures connections == [] && lastUpdated == map[] && maps == {} && log == []
    {
      connections := [];
      lastUpdated := map[];
      maps := {};
      log := [];
    }

    /** `injectPlayer`: the player's connection is recorded under its id. */
    method InjectPlayer(u: Uuid)
      requires Valid()
      modifies this
      ensures Valid()
      ensures connections == WithConnection(old(connections), u)
      ensures lastUpdated == old(lastUpdated) && maps == old(maps) && log == old(log)
    {
      connections := WithConnection(connections, u);
    }

    /** `uninjectPlayer`: the player's connection is dropped. */
    method UninjectPlayer(u: Uuid)
      requires Valid()
      modifies this
      ensures Valid()
      ensures connections == WithoutConnection(old(connections), u) && u !in connections
      ensures lastUpdated == old(lastUpdated) && maps == old(maps) && log == old(log)
    {
      WithoutConnectionDistinct(connections, u);
      connections := WithoutConnection(connections, u);
    }

    predicate IsMapRegistered(id: int)
      reads this
    {
      id in maps
    }

    /** `registerMap`: afterwards id is registered and every other id is as it was. */
    method RegisterMap(id: int)
      modifies this
      ensures IsMapRegistered(id)
      ensures forall j :: j != id ==> (IsMapRegistered(j) <==> old(IsMapRegistered(j)))
      ensures connections == old(connections) && lastUpdated == old(lastUpdated) && log == old(log)
    {
      maps := maps + {id};
    }

    /** `unregisterMap`: afterwards id is not registered and every other id is as it was. */
    method UnregisterMap(id: int)
      modifies this
      ensures !IsMapRegistered(id)
      ensures forall j :: j != id ==> (IsMapRegistered(j) <==> old(IsMapRegistered(j)))
      ensures connections == old(connections) && lastUpdated == old(lastUpdated) && log == old(log)
    {
      maps := maps - {id};
    }

    /**
     * `displayMaps` with explicit offsets: the frame is cut into the descriptors of the maps
     * it overlaps, and each listed viewer (every connection when `viewers` is null) that is
     * due under the rate limit is stamped with `now` and, if connected, sent the whole packet
     * array. A negative array size throws before anything changes.
     */
    method DisplayMaps(viewers: Option<seq<Uuid>>, firstMap: int, width: int, height: int, rgb: seq<int8>,
                       videoWidth: int, xOff: int, yOff: int, now: int) returns (ok: bool)
      requires Valid() && videoWidth > 0
      modifies this
      ensures Valid() && connections == old(connections) && maps == old(maps)
      ensures var p := PlacementFor(firstMap, width, height, |rgb|, videoWidth, xOff, yOff);
        Outbox(lastUpdated, log, !ok) ==
          MapsOutcome(Outbox(old(lastUpdated), old(log), false), rgb, p, Audience(viewers, connections), connections, now)
      ensures ok <==> AllocatedSlots(PlacementFor(firstMap, width, height, |rgb|, videoWidth, xOff, yOff)) >= 0
      ensures !ok ==> lastUpdated == old(lastUpdated) && log == old(log)
      ensures ok ==> lastUpdated == Stamped(old(lastUpdated), Audience(viewers, connections), now)
      ensures ok ==> var p := PlacementFor(firstMap, width, height, |rgb|, videoWidth, xOff, yOff);
        var due := Due(old(lastUpdated), Audience(viewers, connections), now);
        forall u :: (Received(log, u) == Received(old(log), u) +
          (if u in due && u in connections then MapUpdates(PacketSlots(rgb, p)) else []))
    {
      var vidHeight := JavaDiv(|rgb|, videoWidth);
      var p := Placement(firstMap, width, height, videoWidth, vidHeight, xOff, yOff);
      assert p == PlacementFor(firstMap, width, height, |rgb|, videoWidth, xOff, yOff);
      if AllocatedSlots(p) < 0 {
        // NegativeArraySizeException
        return false;
      }
      var packetArray := ComposeTiles(rgb, p);
      var targets := Audience(viewers, connections);
      var r := LimitedRoute(connections, now, MapUpdates(packetArray[..]));
      var o := Outbox(lastUpdated, log, false);
      DeliveryCrashes(o, targets, r);
      RateLimitedStamps(o, targets, r);
      forall u
        ensures Received(Deliver(o, targets, r).log, u) == Received(o.log, u) +
          (if u in Due(o.lastUpdated, targets, now) && u in Connected(connections) then r.batch else [])
      {
        RateLimitedReceived(o, targets, r, u);
      }
      var res := DeliverLoop(o, targets, r);
      lastUpdated, log, ok := res.lastUpdated, res.log, true;
    }

    /**
     * The centring `displayMaps`: the frame height is `capacity / videoWidth`, and the offsets
     * halve the leftover width and height, rounding down.
     */
    method DisplayMapsCentred(viewers: Option<seq<Uuid>>, firstMap: int, width: int, height: int, rgb: seq<int8>,
                              videoWidth: int, now: int) returns (ok: bool)
      requires Valid() && videoWidth > 0
      modifies this
      ensures Valid() && connections == old(connections) && maps == old(maps)
      ensures Outbox(lastUpdated, log, !ok) ==
        MapsOutcome(Outbox(old(lastUpdated), old(log), false), rgb, Centred(firstMap, width, height, |rgb|, videoWidth),
                    Audience(viewers, connections), connections, now)
      ensures ok <==> AllocatedSlots(Centred(firstMap, width, height, |rgb|, videoWidth)) >= 0
    {
      var vidHeight := JavaDiv(|rgb|, videoWidth);
      var pixW := width * 128;
      var pixH := height * 128;
      var xOff := (pixW - videoWidth) / 2;
      var yOff := (pixH - vidHeight) / 2;
      assert PlacementFor(firstMap, width, height, |rgb|, videoWidth, xOff, yOff) ==
        Centred(firstMap, width, height, |rgb|, videoWidth);
      ok := DisplayMaps(viewers, firstMap, width, height, rgb, videoWidth, xOff, yOff, now);
    }

    /**
     * `displayDebugMarker`: one marker packet at the packed block position, through
     * `sendPacket` (rate-limited, a missing connection skipped).
     */
    method DisplayDebugMarker(viewers: Option<seq<Uuid>>, x: bv32, y: bv32, z: bv32, color: int, time: int, now: int)
      requires Valid()
      modifies this
      ensures Valid() && connections == old(connections) && maps == old(maps)
      ensures var batch := [DebugMarker(BlockPosition(x, y, z), color, time)];
        Outbox(lastUpdated, log, false) ==
          Deliver(Outbox(old(lastUpdated), old(log), false), Audience(viewers, connections), LimitedRoute(connections, now, batch))
      ensures lastUpdated == Stamped(old(lastUpdated), Audience(viewers, connections), now)
      ensures var due := Due(old(lastUpdated), Audience(viewers, connections), now);
        forall u :: (Received(log, u) == Received(old(log), u) +
          (if u in due && u in connections then [DebugMarker(BlockPosition(x, y, z), color, time)] else []))
    {
      var packet := DebugMarker(BlockPosition(x, y, z), color, time);
      var targets := Audience(viewers, connections);
      var r := LimitedRoute(connections, now, [packet]);
      var o := Outbox(lastUpdated, log, false);
      DeliveryCrashes(o, targets, r);
      RateLimitedStamps(o, targets, r);
      forall u
        ensures Received(Deliver(o, targets, r).log, u) == Received(o.log, u) +
          (if u in Due(o.lastUpdated, targets, now) && u in Connected(connections) then r.batch else [])
      {
        RateLimitedReceived(o, targets, r, u);
      }
      var res := DeliverLoop(o, targets, r);
      lastUpdated, log := res.lastUpdated, res.log;
    }

    /**
     * `displayEntities`: one name-line packet per entity row, sent without the rate limit to
     * every listed viewer that has a connection (every connection when `viewers` is null).
     * It throws, sending nothing, when the packet count is negative or the data runs out.
     */
    method DisplayEntities(viewers: Option<seq<Uuid>>, entityIds: seq<int>, data: seq<int>, width: int, height: int)
      returns (ok: bool)
      requires Valid()
      modifies this
      ensures Valid() && connections == old(connections) && maps == old(maps) && lastUpdated == old(lastUpdated)
      ensures var rows := Min(height, |entityIds|);
        ok <==> 0 <= rows && EntityDataFits(|data|, width, rows)
      ensures !ok ==> log == old(log)
      ensures ok ==> var batch := EntityBatch(entityIds, data, FULL_BLOCK, width, Min(height, |entityIds|));
        var targets := Audience(viewers, connections);
        log == Deliver(Outbox(lastUpdated, old(log), false), targets, Route(Connected(connections), 0, batch, false, false)).log &&
        forall u :: (Received(log, u) == Received(old(log), u) +
          (if u in connections then Repeat(batch, Occurrences(targets, u)) else []))
    {
      var packets, built := BuildEntityPackets(entityIds, data, FULL_BLOCK, width, height);
      if !built {
        return false;
      }
      var targets := Audience(viewers, connections);
      var r := Route(Connected(connections), 0, packets, false, false);
      var o := Outbox(lastUpdated, log, false);
      DeliveryCrashes(o, targets, r);
      UnlimitedDelivery(o, targets, r);
      var res := DeliverLoop(o, targets, r);
      log := res.log;
      ok := true;
    }

    /**
     * `displayChat`: row by row, the colour-run line of the row goes to every viewer, each
     * of whom must have a connection. A row past the data, a null viewer array or a viewer
     * without a connection throws, after the rows before it were sent.
     */
    method DisplayChat(viewers: Option<seq<Uuid>>, character: string, data: seq<int>, width: int, height: int)
      returns (ok: bool)
      requires Valid()
      modifies this
      ensures Valid() && connections == old(connections) && maps == old(maps)
      ensures Outbox(lastUpdated, log, !ok) ==
        ChatOutcome(Outbox(old(lastUpdated), old(log), false), viewers, Connected(connections), character, data, width, Max(height, 0))
    {
      var res := ChatRows(Outbox(lastUpdated, log, false), viewers, Connected(connections), character, data, width, height);
      lastUpdated, log, ok := res.lastUpdated, res.log, !res.crashed;
    }
  }
}
