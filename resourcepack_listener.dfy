/**
 * `ForcefulResourcepackListener`: a set of players who still have to answer a resource-pack
 * prompt, shrunk by their status events. The Bukkit server is reduced to the set of online
 * players at construction, the pack offers it makes (`setResourcePack(url, hash)`), the log
 * lines it prints and the unregistrations of the status handler; the six-minute timer is
 * the explicit event `Timeout`.
 */
module ResourcepackListener {
  import opened Wrappers

  type Uuid = int

  /** The answers of `PlayerResourcePackStatusEvent.Status`; `Other` stands for any status the switch does not name. */
  datatype Status = SuccessfullyLoaded | Declined | FailedDownload | Accepted | Other

  /** A status event: the player and the answer. */
  datatype StatusEvent = StatusEvent(player: Uuid, status: Status)

  /** What `Logger.info` is told. */
  datatype Notice = CouldNotSet(player: Uuid) | CouldNotForce(pending: set<Uuid>)

  /** `unregister(this)` drops this listener; `unregister(plugin)` every status handler of the plugin. */
  datatype Unregistration = ThisListener | AllOfPlugin

  /** The statuses after which a player is no longer waited for. */
  predicate Settles(s: Status)
  {
    s == Declined || s == SuccessfullyLoaded || s == Accepted
  }

  /** What a status event does: the new pending set, whether the pack is offered again, and whether the listener unregisters. */
  datatype Reaction = Reaction(pending: set<Uuid>, resend: bool, unregister: bool)

  /** `onResourcepackStatus` on the pending set. */
  function React(pending: set<Uuid>, e: StatusEvent): (r: Reaction)
    ensures r.pending <= pending
    ensures e.player !in pending ==> r == Reaction(pending, false, false)
    ensures e.player in r.pending <==> e.player in pending && !Settles(e.status)
    ensures forall v :: v != e.player ==> (v in r.pending <==> v in pending)
    ensures r.resend <==> e.player in pending && e.status == FailedDownload
    ensures r.unregister <==> e.player in pending && Settles(e.status) && pending == {e.player}
    ensures r.unregister ==> r.pending == {}
  {
    if e.player !in pending then Reaction(pending, false, false)
    else match e.status
      case FailedDownload => Reaction(pending, true, false)
      case Declined | SuccessfullyLoaded | Accepted =>
        var rest := pending - {e.player};
        Reaction(rest, false, rest == {})
      case Other => Reaction(pending, false, false)
  }

  /** The pending set after a run of status events. */
  function AfterEvents(pending: set<Uuid>, events: seq<StatusEvent>): set<Uuid>
  {
    if |events| == 0 then pending
    else React(AfterEvents(pending, events[..|events| - 1]), events[|events| - 1]).pending
  }

  /** The players with a settling answer among the events. */
  function Settled(events: seq<StatusEvent>): set<Uuid>
  {
    set i | 0 <= i < |events| && Settles(events[i].status) :: events[i].player
  }

  /**
   * The pending set only shrinks, and it shrinks by exactly the players who gave a
   * settling answer: a failed download, an unnamed status, or an answer from a player who
   * is not pending keeps nobody and drops nobody.
   */
  lemma {:induction false} AfterEventsRemovesSettled(pending: set<Uuid>, events: seq<StatusEvent>)
    ensures AfterEvents(pending, events) == pending - Settled(events)
    ensures AfterEvents(pending, events) <= pending
    decreases |events|
  {
    if |events| > 0 {
      var pre := events[..|events| - 1];
      var e := events[|events| - 1];
      AfterEventsRemovesSettled(pending, pre);
      assert Settled(events) == Settled(pre) + (if Settles(e.status) then {e.player} else {}) by {
        forall v | v in Settled(events)
          ensures v in Settled(pre) + (if Settles(e.status) then {e.player} else {})
        {
          var i :| 0 <= i < |events| && Settles(events[i].status) && events[i].player == v;
          if i < |pre| {
            assert pre[i] == events[i];
          }
        }
        forall v | v in Settled(pre)
          ensures v in Settled(events)
        {
          var i :| 0 <= i < |pre| && Settles(pre[i].status) && pre[i].player == v;
          assert events[i] == pre[i];
        }
        if Settles(e.status) {
          assert events[|events| - 1] == e;
        }
      }
    }
  }

  /** The online players among `order`, in order: the ones `sendResourcepack` offers the pack. */
  function OnlineOf(order: seq<Uuid>, online: set<Uuid>): seq<Uuid>
  {
    if |order| == 0 then []
    else OnlineOf(order[..|order| - 1], online) + (if order[|order| - 1] in online then [order[|order| - 1]] else [])
  }

  /** The log lines `sendResourcepack` prints for offline players, in order. */
  function OfflineNotices(order: seq<Uuid>, online: set<Uuid>): seq<Notice>
  {
    if |order| == 0 then []
    else OfflineNotices(order[..|order| - 1], online) + (if order[|order| - 1] in online then [] else [CouldNotSet(order[|order| - 1])])
  }

  /** Exactly the online pending players are offered the pack, each once. */
  lemma {:induction false} OnlineOfMembers(order: seq<Uuid>, online: set<Uuid>)
    requires Distinct(order)
    ensures forall u :: u in OnlineOf(order, online) <==> u in order && u in online
    ensures Distinct(OnlineOf(order, online))
    ensures |OnlineOf(order, online)| + |OfflineNotices(order, online)| == |order|
    decreases |order|
  {
    if |order| > 0 {
      var pre := order[..|order| - 1];
      var last := order[|order| - 1];
      assert Distinct(pre);
      OnlineOfMembers(pre, online);
      assert order == pre + [last];
      assert last !in pre;
    }
  }

  class ForcefulResourcepackListener {
    /** The players still waited for; the caller's set, shrunk in place. */
    var uuids: set<Uuid>
    const url: string
    const hash: seq<bv8>
    /** Every player offered `(url, hash)` so far, in order. */
    var sent: seq<Uuid>
    var notices: seq<Notice>
    var unregistrations: seq<Unregistration>
    /** Timers armed by `start` that have not fired yet. */
    var timers: nat

    /** The status handler is still registered. */
    predicate Listening()
      reads this
    {
      unregistrations == []
    }

    /**
     * The listener registers itself and offers the pack to every pending player who is
     * online (`order` is the set's iteration order); an offline one is only logged and stays
     * pending.
     */
    constructor(order: seq<Uuid>, online: set<Uuid>, url: string, hash: seq<bv8>)
      requires Distinct(order)
      ensures uuids == (set u | u in order) && this.url == url && this.hash == hash
      ensures sent == OnlineOf(order, online)
      ensures notices == OfflineNotices(order, online)
      ensures Listening() && timers == 0
    {
      uuids := set u | u in order;
      this.url := url;
      this.hash := hash;
      sent := [];
      notices := [];
      unregistrations := [];
      timers := 0;
      new;
      SendResourcepack(order, online);
    }

    /** `sendResourcepack`. */
    method SendResourcepack(order: seq<Uuid>, online: set<Uuid>)
      modifies this
      ensures sent == old(sent) + OnlineOf(order, online)
      ensures notices == old(notices) + OfflineNotices(order, online)
      ensures uuids == old(uuids) && unregistrations == old(unregistrations) && timers == old(timers)
    {
      var i := 0;
      while i < |order|
        invariant 0 <= i <= |order|
        invariant sent == old(sent) + OnlineOf(order[..i], online)
        invariant notices == old(notices) + OfflineNotices(order[..i], online)
        invariant uuids == old(uuids) && unregistrations == old(unregistrations) && timers == old(timers)
      {
        assert order[..i + 1][..i] == order[..i];
        var uuid := order[i];
        if uuid in online {
          sent := sent + [uuid];
        } else {
          notices := notices + [CouldNotSet(uuid)];
        }
        i := i + 1;
      }
      assert order[..i] == order;
    }

    /** `start`: arms the timer. */
    method Start()
      modifies this
      ensures timers == old(timers) + 1
      ensures uuids == old(uuids) && sent == old(sent) && notices == old(notices)
      ensures unregistrations == old(unregistrations)
    {
      timers := timers + 1;
    }

    /** The timer fires: players still pending are logged and the plugin's status handlers dropped. */
    method Timeout()
      requires timers > 0
      modifies this
      ensures timers == old(timers) - 1
      ensures uuids == old(uuids) && sent == old(sent)
      ensures notices == old(notices) + (if uuids != {} then [CouldNotForce(uuids)] else [])
      ensures unregistrations == old(unregistrations) + (if uuids != {} then [AllOfPlugin] else [])
      ensures Listening() <==> old(Listening()) && uuids == {}
    {
      timers := timers - 1;
      if uuids != {} {
        notices := notices + [CouldNotForce(uuids)];
        unregistrations := unregistrations + [AllOfPlugin];
      }
    }

    /** `onResourcepackStatus`. */
    method OnResourcepackStatus(e: StatusEvent)
      modifies this
      ensures var r := React(old(uuids), e);
        uuids == r.pending &&
        sent == old(sent) + (if r.resend then [e.player] else []) &&
        unregistrations == old(unregistrations) + (if r.unregister then [ThisListener] else [])
      ensures notices == old(notices) && timers == old(timers)
    {
      var uuid := e.player;
      if uuid !in uuids {
        return;
      }
      match e.status {
        case FailedDownload =>
          sent := sent + [uuid];
        case Declined =>
          Settle(uuid);
        case SuccessfullyLoaded =>
          Settle(uuid);
        case Accepted =>
          Settle(uuid);
        case Other =>
      }
    }

    /** The shared arm of the switch: drop the player, and unregister once nobody is left. */
    method Settle(uuid: Uuid)
      modifies this
      ensures uuids == old(uuids) - {uuid}
      ensures unregistrations == old(unregistrations) + (if uuids == {} then [ThisListener] else [])
      ensures sent == old(sent) && notices == old(notices) && timers == old(timers)
      ensures Listening() <==> old(Listening()) && uuids != {}
    {
      uuids := uuids - {uuid};
      if uuids == {} {
        unregistrations := unregistrations + [ThisListener];
      }
    }

    /** A run of status events ends with the pending set of `AfterEvents`. */
    method OnStatusEvents(events: seq<StatusEvent>)
      modifies this
      ensures uuids == AfterEvents(old(uuids), events) && uuids == old(uuids) - Settled(events)
      ensures notices == old(notices) && timers == old(timers)
    {
      var i := 0;
      while i < |events|
        invariant 0 <= i <= |events|
        invariant uuids == AfterEvents(old(uuids), events[..i])
        invariant notices == old(notices) && timers == old(timers)
      {
        assert events[..i + 1][..i] == events[..i];
        OnResourcepackStatus(events[i]);
        i := i + 1;
      }
      assert events[..i] == events;
      AfterEventsRemovesSettled(old(uuids), events);
    }
  }
}
