/** The relay's mutable state and its four event handlers (main.ts): the
    registry `peers`, the bot map `botsKnownByPeers`, the `peerId` written on
    each connection, and every `send`, recorded in order in `outbox`. Fresh
    UUIDs and the clock are parameters; which connections are OPEN is the
    transport's business and changes only through `SetReadyState`. */
module SignalingServer {
  import opened Options
  import opened OrderedMaps
  import opened Json
  import opened Ids
  import opened Lifetime
  import opened Signaling

  class Server {
    /** `peers`: peer id to connection, in insertion order. */
    var peers: OrderedMap<string, Socket>
    /** `botsKnownByPeers`: owner peer id to the bot record minted for it. */
    var bots: OrderedMap<string, Bot>
    /** The `peerId` property the `open` handler writes on each connection. */
    var tags: map<Socket, string>
    /** The connections whose `readyState` is OPEN. */
    var openSockets: set<Socket>
    /** Every message sent, oldest first. */
    var outbox: seq<Send>
    /** `BotLifetimeMs`, read from the environment once at start-up. */
    const lifetime: Number

    /** Both maps are well formed, every registered id is a UUID and every
        bot id carries the bot prefix. */
    ghost predicate Valid()
      reads this`peers, this`bots
    {
      PeersValid() && BotsValid()
    }

    ghost predicate PeersValid()
      reads this`peers
    {
      peers.Valid() && forall id :: id in peers.entries ==> IsUuid(id)
    }

    ghost predicate BotsValid()
      reads this`bots
    {
      bots.Valid() && forall owner :: owner in bots.entries ==> StartsWith(bots.entries[owner].id, BotPrefix)
    }

    /** Start-up: empty maps, nothing sent, the lifetime taken from the
        `BOT_LIFETIME_MS` setting. */
    constructor (lifetimeSetting: Option<string>)
      ensures Valid()
      ensures peers == Empty() && bots == Empty() && tags == map[]
      ensures openSockets == {} && outbox == []
      ensures lifetime == BotLifetimeMs(lifetimeSetting)
    {
      peers := Empty();
      bots := Empty();
      tags := map[];
      openSockets := {};
      outbox := [];
      lifetime := BotLifetimeMs(lifetimeSetting);
    }

    /** The transport moves a connection into or out of the OPEN state. */
    method SetReadyState(ws: Socket, isOpen: bool)
      modifies this`openSockets
      ensures openSockets == if isOpen then old(openSockets) + {ws} else old(openSockets) - {ws}
    {
      if isOpen {
        openSockets := openSockets + {ws};
      } else {
        openSockets := openSockets - {ws};
      }
    }

    /** The first two steps of `open`: tag the connection with its new id and
        enter it in the registry. */
    method Register(ws: Socket, uuid: string)
      requires PeersValid() && IsUuid(uuid)
      modifies this`peers, this`tags
      ensures PeersValid()
      ensures peers == old(peers).Set(uuid, ws)
      ensures tags == old(tags)[ws := uuid]
    {
      tags := tags[ws := uuid];
      peers := peers.Set(uuid, ws);
    }

    /** `makeBotPeerData`: mint a bot id from a fresh UUID and record it, with
        its creation time, against `peerId` (replacing any earlier record). */
    method MakeBotPeerData(peerId: string, botUuid: string, now: int) returns (botId: string)
      requires BotsValid() && IsUuid(botUuid)
      modifies this`bots
      ensures botId == BotId(botUuid) && StartsWith(botId, BotPrefix)
      ensures bots == old(bots).Set(peerId, Bot(botId, now))
      ensures BotsValid()
    {
      botId := BotId(botUuid);
      bots := bots.Set(peerId, Bot(botId, now));
    }

    /** The `init` step of `open`: send the newcomer `uuid` on `ws` the other
        registered ids, or, when there are none, a bot minted for it. */
    method Greet(ws: Socket, uuid: string, botUuid: string, now: int)
      requires BotsValid() && IsUuid(botUuid)
      modifies this`bots, this`outbox
      ensures BotsValid()
      ensures var others := Remove(peers.keys, uuid);
        && bots == (if |others| > 0 then old(bots) else old(bots).Set(uuid, Bot(BotId(botUuid), now)))
        && outbox == old(outbox) + [Send(ws, Init(uuid, InitPeers(others, BotId(botUuid))))]
    {
      var others := Remove(peers.keys, uuid);
      var listed: seq<string>;
      if |others| > 0 {
        listed := others;
      } else {
        var botId := MakeBotPeerData(uuid, botUuid, now);
        listed := [botId];
      }
      outbox := outbox + [Send(ws, Init(uuid, listed))];
    }

    /** The `open` handler: register `ws` under the new id `uuid`, send it an
        `init` listing the other registered ids (or a freshly minted bot when
        there are none, recorded against the newcomer), then tell every other
        open peer, in registry order, that the newcomer joined. */
    method Open(ws: Socket, uuid: string, botUuid: string, now: int)
      requires Valid()
      requires IsUuid(uuid) && IsUuid(botUuid)
      requires ws !in tags
      modifies this`peers, this`bots, this`tags, this`outbox
      ensures Valid()
      ensures peers == old(peers).Set(uuid, ws)
      ensures tags == old(tags)[ws := uuid]
      ensures var others := Remove(peers.keys, uuid);
        && bots == (if |others| > 0 then old(bots) else old(bots).Set(uuid, Bot(BotId(botUuid), now)))
        && outbox == old(outbox)
             + [Send(ws, Init(uuid, InitPeers(others, BotId(botUuid))))]
             + Broadcasts(peers.keys, peers.entries, openSockets, Some(uuid), PeerJoined(uuid))
    {
      Register(ws, uuid);
      Greet(ws, uuid, botUuid, now);
      ghost var greeted := outbox;
      Broadcast(PeerJoined(uuid), Some(uuid));
      assert outbox == greeted + Broadcasts(peers.keys, peers.entries, openSockets, Some(uuid), PeerJoined(uuid));
    }

    /** The broadcast loops of `open` and `close`: walk the registry in order
        and send `msg` to every open connection, except that of `skip`. */
    method Broadcast(msg: OutMsg, skip: Option<string>)
      requires peers.Valid()
      modifies this`outbox
      ensures outbox == old(outbox) + Broadcasts(peers.keys, peers.entries, openSockets, skip, msg)
    {
      var keys, sockets := peers.keys, peers.entries;
      var i := 0;
      while i < |keys|
        invariant 0 <= i <= |keys|
        invariant outbox == old(outbox) + Broadcasts(keys[..i], sockets, openSockets, skip, msg)
      {
        var id := keys[i];
        BroadcastStep(keys, i, sockets, openSockets, skip, msg);
        ghost var done := Broadcasts(keys[..i], sockets, openSockets, skip, msg);
        if Some(id) != skip && sockets[id] in openSockets {
          assert old(outbox) + done + [Send(sockets[id], msg)] == old(outbox) + (done + [Send(sockets[id], msg)]);
          outbox := outbox + [Send(sockets[id], msg)];
        }
        i := i + 1;
      }
      assert keys[..i] == keys;
    }

    /** The `message` handler: route one inbound frame from `ws`. Nothing but
        the outbox changes. */
    method Message(ws: Socket, frame: Frame)
      modifies this`outbox
      ensures outbox == old(outbox) + Route(frame, peers.entries, openSockets, ws,
                                            if ws in tags then Some(tags[ws]) else None)
    {
      var sender := if ws in tags then Some(tags[ws]) else None;
      outbox := outbox + Route(frame, peers.entries, openSockets, ws, sender);
    }

    /** The `close` handler: a connection that carries a (non-empty) `peerId`
        is unregistered and every remaining open peer, in registry order, is
        told that it left; any other connection changes nothing. Bot records
        are left for the sweep. */
    method Close(ws: Socket)
      requires Valid()
      modifies this`peers, this`outbox
      ensures Valid()
      ensures !(ws in tags && tags[ws] != "") ==> peers == old(peers) && outbox == old(outbox)
      ensures ws in tags && tags[ws] != "" ==>
        && peers == old(peers).Delete(tags[ws])
        && outbox == old(outbox)
             + Broadcasts(peers.keys, peers.entries, openSockets, None, PeerLeft(tags[ws]))
    {
      if ws in tags && tags[ws] != "" {
        var peerId := tags[ws];
        peers := peers.Delete(peerId);

        Broadcast(PeerLeft(peerId), None);
      }
    }

    /** The periodic sweep at time `now`: every bot record older than the
        lifetime is deleted, and its owner, if registered and open, is told
        that the bot left. Records are visited in insertion order; deleting
        the record being visited does not disturb the iteration. */
    method Sweep(now: int)
      requires Valid()
      modifies this`bots, this`outbox
      ensures Valid()
      ensures bots.keys == Survivors(old(bots.keys), old(bots.entries), now, lifetime)
      ensures bots.entries == map o | o in old(bots.entries) && !Expires(o, old(bots.entries), now, lifetime)
                                    :: old(bots.entries)[o]
      ensures outbox == old(outbox)
        + SweepNotices(old(bots.keys), old(bots.entries), peers.entries, openSockets, now, lifetime)
    {
      var remaining, sent := SweepRecords(bots, peers.entries, openSockets, now, lifetime);
      bots := remaining;
      outbox := outbox + sent;
    }
  }

  /** The loop of the sweep over a snapshot of the bot records, in insertion
      order: delete each expired record and collect the notice of its owner
      when the owner is registered and open. */
  method SweepRecords(bots: OrderedMap<string, Bot>, sockets: map<string, Socket>, open: set<Socket>,
                      now: int, lifetime: Number)
    returns (remaining: OrderedMap<string, Bot>, sent: seq<Send>)
    requires bots.Valid()
    ensures remaining.Valid()
    ensures remaining.keys == Survivors(bots.keys, bots.entries, now, lifetime)
    ensures remaining.entries == map o | o in bots.entries && !Expires(o, bots.entries, now, lifetime)
                                   :: bots.entries[o]
    ensures sent == SweepNotices(bots.keys, bots.entries, sockets, open, now, lifetime)
  {
    var owners := bots.keys;
    remaining := bots;
    sent := [];
    SweepStart(bots, sockets, open, now, lifetime);
    var i := 0;
    while i < |owners|
      invariant SweptThrough(owners, i, bots.entries, sockets, open, now, lifetime, remaining, sent)
    {
      remaining, sent := SweepOne(owners, i, bots.entries, sockets, open, now, lifetime, remaining, sent);
      i := i + 1;
    }
    SweepFinish(owners, bots.entries, sockets, open, now, lifetime, remaining, sent);
    SweepLeavesLive(owners, bots.entries, now, lifetime, remaining);
  }

  /** One iteration of the sweep loop: the record of `owners[i]` is deleted
      when it has expired, and its owner is sent a notice when it listens. */
  method SweepOne(owners: seq<string>, i: nat, records: map<string, Bot>,
                  sockets: map<string, Socket>, open: set<Socket>, now: int, lifetime: Number,
                  remaining: OrderedMap<string, Bot>, sent: seq<Send>)
    returns (remaining': OrderedMap<string, Bot>, sent': seq<Send>)
    requires Distinct(owners) && i < |owners|
    requires SweptThrough(owners, i, records, sockets, open, now, lifetime, remaining, sent)
    ensures SweptThrough(owners, i + 1, records, sockets, open, now, lifetime, remaining', sent')
  {
    var owner := owners[i];
    SweepReaches(owners, i, records, sockets, open, now, lifetime, remaining, sent);
    var bot := remaining.entries[owner];
    if Expired(now - bot.createdAt, lifetime) {
      SweepDrops(owners, i, records, sockets, open, now, lifetime, remaining, sent);
      if owner in sockets && sockets[owner] in open {
        sent' := sent + [Send(sockets[owner], PeerLeft(bot.id))];
      } else {
        sent' := sent;
        assert sent' == sent + [];
      }
      remaining' := remaining.Delete(owner);
    } else {
      SweepKeeps(owners, i, records, sockets, open, now, lifetime, remaining, sent);
      remaining', sent' := remaining, sent;
    }
  }
}
