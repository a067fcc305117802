/**
 * The 1.18 (v1_18_R1) packet interceptor. Its tile compositor and rate limit are those of
 * the 1.16 one, but none of its delivery helpers checks for a missing connection: a listed
 * viewer without one makes the call throw (a NullPointerException) as soon as a packet is
 * due for it. The grid dimensions of `displayMaps` arrive as `(map, height, width)`.
 *
 * Every packet handed to a connection is appended to `log`. A call that throws in the
 * Java code returns `false` here, keeping the state it had reached.
 */
module InterceptorV1_18 {
  import opened Wrappers
  import opened JavaTypes
  import opened TileCompositor
  import opened PacketDelivery

  /** `sendMapPacketsToViewers`: rate-limited, and a missing connection is dereferenced. */
  function MapRoute(connections: seq<Uuid>, now: int, batch: seq<Packet>): Route
  {
    Route(Connected(connections), now, batch, true, true)
  }

  /** `connections.get(uuid).a(packet)` for every packet: no rate limit, no null check. */
  function PlainRoute(connections: seq<Uuid>, batch: seq<Packet>): Route
  {
    Route(Connected(connections), 0, batch, false, true)
  }

  /**
   * Where the packet array of one `displayMaps` call goes, and the state it leaves: a
   * negative array size throws before anything is sent.
   */
  function MapsOutcome(o: Outbox, rgb: seq<int8>, p: Placement, targets: seq<Uuid>, connections: seq<Uuid>, now: int): Outbox
    requires PlacementOk(p) && FrameFits(p, |rgb|)
  {
    if AllocatedSlots(p) < 0 then o.(crashed := true)
    else Deliver(o, targets, MapRoute(connections, now, MapUpdates(PacketSlots(rgb, p))))
  }

  class NMSMapPacketInterceptor {
    /** The keys of `connections`, in the map's iteration order. */
    var connections: seq<Uuid>
    var lastUpdated: map<Uuid, int>
    var maps: set<int>
    /** Every packet handed to a connection so far. */
    var log: seq<Sent>

    ghost predicate Valid()
      reads this
    {
      Distinct(connections)
    }

    constructor()
      ensures Valid()
      ensures connections == [] && lastUpdated == map[] && maps == {} && log == []
    {
      connections := [];
      lastUpdated := map[];
      maps := {};
      log := [];
    }

    /** `injectPlayer`: the player's connection is recorded under its id. */
    method InjectPlayer(u: Uuid)
      requires Valid()
      modifies this
      ensures Valid()
      ensures connections == WithConnection(old(connections), u)
      ensures lastUpdated == old(lastUpdated) && maps == old(maps) && log == old(log)
    {
      connections := WithConnection(connections, u);
    }

    /** `uninjectPlayer`: the player's connection is dropped. */
    method UninjectPlayer(u: Uuid)
      requires Valid()
      modifies this
      ensures Valid()
      ensures connections == WithoutConnection(old(connections), u) && u !in connections
      ensures lastUpdated == old(lastUpdated) && maps == old(maps) && log == old(log)
    {
      WithoutConnectionDistinct(connections, u);
      connections := WithoutConnection(connections, u);
    }

    predicate IsMapRegistered(id: int)
      reads this
    {
      id in maps
    }

    /** `registerMap`: afterwards id is registered and every other id is as it was. */
    method RegisterMap(id: int)
      modifies this
      ensures IsMapRegistered(id)
      ensures forall j :: j != id ==> (IsMapRegistered(j) <==> old(IsMapRegistered(j)))
      ensures connections == old(connections) && lastUpdated == old(lastUpdated) && log == old(log)
    {
      maps := maps + {id};
    }

    /** `unregisterMap`: afterwards id is not registered and every other id is as it was. */
    method UnregisterMap(id: int)
      modifies this
      ensures !IsMapRegistered(id)
      ensures forall j :: j != id ==> (IsMapRegistered(j) <==> old(IsMapRegistered(j)))
      ensures connections == old(connections) && lastUpdated == old(lastUpdated) && log == old(log)
    {
      maps := maps - {id};
    }

    /**
     * `displayDebugMarker`: the marker goes to every listed viewer, each of whom must have
     * a connection; there is no rate limit.
     */
    method DisplayDebugMarker(viewers: seq<Uuid>, x: bv32, y: bv32, z: bv32, color: int, time: int) returns (ok: bool)
      requires Valid()
      modifies this
      ensures Valid() && connections == old(connections) && maps == old(maps) && lastUpdated == old(lastUpdated)
      ensures var batch := [DebugMarker(BlockPosition(x, y, z), color, time)];
        Outbox(lastUpdated, log, !ok) == Deliver(Outbox(old(lastUpdated), old(log), false), viewers, PlainRoute(connections, batch))
      ensures ok <==> forall u :: u in viewers ==> u in connections
      ensures ok ==> forall u :: (Received(log, u) == Received(old(log), u) +
        (if u in connections then Repeat([DebugMarker(BlockPosition(x, y, z), color, time)], Occurrences(viewers, u)) else []))
    {
      var packet := DebugMarker(BlockPosition(x, y, z), color, time);
      var r := PlainRoute(connections, [packet]);
      var o := Outbox(lastUpdated, log, false);
      DeliveryCrashes(o, viewers, r);
      UnlimitedKeepsStamps(o, viewers, r);
      var res := DeliverLoop(o, viewers, r);
      if !res.crashed {
        UnlimitedDelivery(o, viewers, r);
      }
      lastUpdated, log, ok := res.lastUpdated, res.log, !res.crashed;
    }

    /**
     * `displayMaps`: the frame is cut into the descriptors of the maps it overlaps, and each
     * listed viewer (every connection when `viewers` is null) that is due under the rate
     * limit is stamped with `now` and sent the whole packet array. The call throws, before
     * anything changes, when the array size is negative, and otherwise once a due viewer
     * without a connection is reached and the array has at least one slot.
     */
    method DisplayMaps(viewers: Option<seq<Uuid>>, rgb: seq<int8>, firstMap: int, height: int, width: int,
                       videoWidth: int, xOff: int, yOff: int, now: int) returns (ok: bool)
      requires Valid() && videoWidth > 0
      modifies this
      ensures Valid() && connections == old(connections) && maps == old(maps)
      ensures var p := PlacementFor(firstMap, width, height, |rgb|, videoWidth, xOff, yOff);
        Outbox(lastUpdated, log, !ok) ==
          MapsOutcome(Outbox(old(lastUpdated), old(log), false), rgb, p, Audience(viewers, connections), connections, now)
      ensures var p := PlacementFor(firstMap, width, height, |rgb|, videoWidth, xOff, yOff);
        ok <==> (AllocatedSlots(p) == 0 || (AllocatedSlots(p) > 0 &&
          forall u :: u in Audience(viewers, connections) && RateOk(old(lastUpdated), u, now) ==> u in connections))
      ensures AllocatedSlots(PlacementFor(firstMap, width, height, |rgb|, videoWidth, xOff, yOff)) < 0 ==>
        lastUpdated == old(lastUpdated) && log == old(log)
      ensures viewers.None? && AllocatedSlots(PlacementFor(firstMap, width, height, |rgb|, videoWidth, xOff, yOff)) >= 0 ==> ok
      ensures ok ==> lastUpdated == Stamped(old(lastUpdated), Audience(viewers, connections), now)
      ensures ok ==> var p := PlacementFor(firstMap, width, height, |rgb|, videoWidth, xOff, yOff);
        var due := Due(old(lastUpdated), Audience(viewers, connections), now);
        forall u :: (Received(log, u) == Received(old(log), u) +
          (if u in due && u in connections then MapUpdates(PacketSlots(rgb, p)) else []))
    {
      var vidHeight := JavaDiv(|rgb|, videoWidth);
      var p := Placement(firstMap, width, height, videoWidth, vidHeight, xOff, yOff);
      assert p == PlacementFor(firstMap, width, height, |rgb|, videoWidth, xOff, yOff);
      if AllocatedSlots(p) < 0 {
        // NegativeArraySizeException
        return false;
      }
      var packetArray := ComposeTiles(rgb, p);
      var targets := Audience(viewers, connections);
      var r := MapRoute(connections, now, MapUpdates(packetArray[..]));
      var o := Outbox(lastUpdated, log, false);
      DeliveryCrashes(o, targets, r);
      var res := DeliverLoop(o, targets, r);
      if !res.crashed {
        RateLimitedStamps(o, targets, r);
        forall u
          ensures Received(res.log, u) == Received(o.log, u) +
            (if u in Due(o.lastUpdated, targets, now) && u in Connected(connections) then r.batch else [])
        {
          RateLimitedReceived(o, targets, r, u);
        }
      }
      lastUpdated, log, ok := res.lastUpdated, res.log, !res.crashed;
    }

    /**
     * `displayEntities`: one name-line packet per entity row, each pixel a copy of
     * `character`, sent without the rate limit to every listed viewer (every connection when
     * `viewers` is null). It throws when the packet count is negative or the data runs out,
     * sending nothing, or once a listed viewer without a connection is reached.
     */
    method DisplayEntities(viewers: Option<seq<Uuid>>, entityIds: seq<int>, data: seq<int>, character: string,
                           width: int, height: int) returns (ok: bool)
      requires Valid()
      modifies this
      ensures Valid() && connections == old(connections) && maps == old(maps) && lastUpdated == old(lastUpdated)
      ensures var rows := Min(height, |entityIds|);
        var built := 0 <= rows && EntityDataFits(|data|, width, rows);
        var targets := Audience(viewers, connections);
        (!built ==> !ok && log == old(log)) &&
        (built ==> (Outbox(lastUpdated, log, !ok) ==
          Deliver(Outbox(old(lastUpdated), old(log), false), targets,
                  PlainRoute(connections, EntityBatch(entityIds, data, character, width, rows)))))
      ensures ok <==> (var rows := Min(height, |entityIds|);
        0 <= rows && EntityDataFits(|data|, width, rows) &&
        (rows == 0 || forall u :: u in Audience(viewers, connections) ==> u in connections))
    {
      var packets, built := BuildEntityPackets(entityIds, data, character, width, height);
      if !built {
        return false;
      }
      var targets := Audience(viewers, connections);
      var r := PlainRoute(connections, packets);
      var o := Outbox(lastUpdated, log, false);
      DeliveryCrashes(o, targets, r);
      UnlimitedKeepsStamps(o, targets, r);
      var res := DeliverLoop(o, targets, r);
      if !res.crashed {
        UnlimitedDelivery(o, targets, r);
      }
      log, ok := res.log, !res.crashed;
    }
  }
}
