/** The messages of the signaling relay (main.ts) and the pure functions that
    say which messages each event produces: who hears of a join or a leave,
    where a signal is routed, and which bot records a sweep expires. The class
    in server.dfy is proved against these. */
module Signaling {
  import opened Options
  import opened OrderedMaps
  import opened Json
  import opened Ids
  import opened Lifetime

  /** A transport connection (a `ServerWebSocket`), known by an opaque handle. */
  type Socket = nat

  /** A bot record of `botsKnownByPeers`: the bot's id and when it was minted (ms). */
  datatype Bot = Bot(id: string, createdAt: int)

  /** The server-to-client messages, before `JSON.stringify`. */
  datatype OutMsg =
    | Init(peerId: string, peers: seq<string>)
    | PeerJoined(peerId: string)
    | PeerLeft(peerId: string)
    | Signal(payload: map<string, Value>)
    | Error(message: string)

  /** One `ws.send`: the connection written to and what was written. */
  datatype Send = Send(dest: Socket, msg: OutMsg)

  const PeerNotAvailable: string := "Peer not available"

  /** `id` is registered and its connection's `readyState` is OPEN. */
  predicate Listening(id: string, sockets: map<string, Socket>, open: set<Socket>) {
    id in sockets && sockets[id] in open
  }

  /** The ids a broadcast loop writes to, in registry order: registered ids
      with an open connection, other than `skip`. */
  function Audience(keys: seq<string>, sockets: map<string, Socket>, open: set<Socket>,
                    skip: Option<string>): (r: seq<string>)
    ensures forall k :: k in r ==> k in keys && Some(k) != skip && Listening(k, sockets, open)
  {
    if keys == [] then []
    else
      var k := keys[|keys| - 1];
      Audience(keys[..|keys| - 1], sockets, open, skip)
        + (if Some(k) != skip && Listening(k, sockets, open) then [k] else [])
  }

  /** A broadcast reaches exactly the registered, open peers other than
      `skip`, each of them once. */
  lemma {:induction false} AudienceExactly(keys: seq<string>, sockets: map<string, Socket>,
                                           open: set<Socket>, skip: Option<string>)
    requires Distinct(keys)
    ensures forall k :: k in Audience(keys, sockets, open, skip) <==>
      k in keys && Some(k) != skip && Listening(k, sockets, open)
    ensures Distinct(Audience(keys, sockets, open, skip))
  {
    if keys != [] {
      var init := keys[..|keys| - 1];
      AudienceExactly(init, sockets, open, skip);
      assert keys == init + [keys[|keys| - 1]];
    }
  }

  /** What a broadcast loop sends, in registry order: `msg` to the connection
      of every registered, open id other than `skip`. */
  function Broadcasts(keys: seq<string>, sockets: map<string, Socket>, open: set<Socket>,
                      skip: Option<string>, msg: OutMsg): (r: seq<Send>)
  {
    if keys == [] then []
    else
      var k := keys[|keys| - 1];
      Broadcasts(keys[..|keys| - 1], sockets, open, skip, msg)
        + (if Some(k) != skip && Listening(k, sockets, open) then [Send(sockets[k], msg)] else [])
  }

  /** A broadcast writes `msg` once to the connection of each id of the
      audience, in the audience's order, and to nothing else. */
  lemma {:induction false} BroadcastsReachAudience(keys: seq<string>, sockets: map<string, Socket>,
                                                   open: set<Socket>, skip: Option<string>, msg: OutMsg)
    ensures var a := Audience(keys, sockets, open, skip);
      && |Broadcasts(keys, sockets, open, skip, msg)| == |a|
      && forall j :: 0 <= j < |a| ==>
           a[j] in sockets && Broadcasts(keys, sockets, open, skip, msg)[j] == Send(sockets[a[j]], msg)
  {
    var a := Audience(keys, sockets, open, skip);
    assert forall j :: 0 <= j < |a| ==> a[j] in a;
    if keys != [] {
      BroadcastsReachAudience(keys[..|keys| - 1], sockets, open, skip, msg);
    }
  }

  /** One more iteration of a broadcast loop: the id at position `i` is
      written to when it is in the audience, and nothing else changes. */
  lemma BroadcastStep(keys: seq<string>, i: nat, sockets: map<string, Socket>, open: set<Socket>,
                      skip: Option<string>, msg: OutMsg)
    requires i < |keys|
    ensures Broadcasts(keys[..i + 1], sockets, open, skip, msg)
      == Broadcasts(keys[..i], sockets, open, skip, msg)
         + (if Some(keys[i]) != skip && Listening(keys[i], sockets, open) then [Send(sockets[keys[i]], msg)] else [])
  {
    var prefix := keys[..i + 1];
    assert prefix[..|prefix| - 1] == keys[..i];
  }

  // ---------------------------------------------------------------- open

  /** The `peers` list of an `init`: the other registered ids, or else the one
      freshly minted bot id. */
  function InitPeers(others: seq<string>, botId: string): (r: seq<string>)
    ensures |r| >= 1
    ensures forall k :: k in r ==> k in others || k == botId
    ensures botId in r ==> others == [] || botId in others
  {
    if |others| > 0 then others else [botId]
  }

  /** Registering a fresh id: the newcomer's `init` lists every previously
      registered id, in registry order, and nothing else. */
  lemma InitListsPreviousPeers(registry: OrderedMap<string, Socket>, id: string, ws: Socket)
    requires registry.Valid() && id !in registry.entries
    ensures Remove(registry.Set(id, ws).keys, id) == registry.keys
  {
    RemoveAppend(registry.keys, [id], id);
    RemoveAbsent(registry.keys, id);
    assert Remove([id], id) == [] by {
      assert [id][..0] == [];
    }
  }

  /** The `init` a peer receives never names the peer itself: other peers are
      filtered out by id, and a bot id cannot equal a UUID. */
  lemma InitNeverListsSelf(keys: seq<string>, id: string, botUuid: string)
    requires IsUuid(id) && IsUuid(botUuid)
    ensures id !in InitPeers(Remove(keys, id), BotId(botUuid))
    ensures |InitPeers(Remove(keys, id), BotId(botUuid))| >= 1
  {
    RemoveMembers(keys, id);
    BotIdIsNeverPeerId(id, botUuid);
  }

  /** When the newcomer is alone the `init` holds exactly one id, a bot id. */
  lemma LoneNewcomerSeesOneBot(keys: seq<string>, id: string, botUuid: string)
    requires IsUuid(botUuid)
    requires forall k :: k in keys ==> k == id
    ensures InitPeers(Remove(keys, id), BotId(botUuid)) == [BotId(botUuid)]
    ensures StartsWith(BotId(botUuid), BotPrefix)
  {
    RemoveOnly(keys, id);
  }

  /** `peer-joined` reaches exactly the previously registered peers whose
      connection is open, once each, and never the newcomer. */
  lemma JoinAudience(registry: OrderedMap<string, Socket>, id: string, ws: Socket, open: set<Socket>)
    requires registry.Valid()
    ensures var after := registry.Set(id, ws);
      && (forall k :: k in Audience(after.keys, after.entries, open, Some(id)) <==>
            k in registry.entries && k != id && registry.entries[k] in open)
      && Distinct(Audience(after.keys, after.entries, open, Some(id)))
  {
    var after := registry.Set(id, ws);
    AudienceExactly(after.keys, after.entries, open, Some(id));
  }

  // ---------------------------------------------------------------- close

  /** `peer-left` reaches exactly the peers still registered after the
      departure whose connection is open, once each, and never the leaver. */
  lemma LeaveAudience(registry: OrderedMap<string, Socket>, id: string, open: set<Socket>)
    requires registry.Valid()
    ensures var after := registry.Delete(id);
      && id !in after.entries
      && (forall k :: k in Audience(after.keys, after.entries, open, None) <==>
            k in registry.entries && k != id && registry.entries[k] in open)
      && Distinct(Audience(after.keys, after.entries, open, None))
  {
    var after := registry.Delete(id);
    AudienceExactly(after.keys, after.entries, open, None);
  }

  // ---------------------------------------------------------------- message

  /** The target of a routable frame: a JSON object whose `type` is the string
      "signal" and whose `targetId` is a string. Anything else has none. */
  function SignalTarget(frame: Frame): (r: Option<string>)
    ensures r.Some? <==> && frame.Parsed? && frame.value.Object?
                         && "type" in frame.value.fields && frame.value.fields["type"] == Str("signal")
                         && "targetId" in frame.value.fields && frame.value.fields["targetId"].Str?
    ensures r.Some? ==> r.value == frame.value.fields["targetId"].s
  {
    match frame
    case Malformed => None
    case Parsed(v) =>
      if v.Object? && "type" in v.fields && v.fields["type"] == Str("signal")
         && "targetId" in v.fields && v.fields["targetId"].Str?
      then Some(v.fields["targetId"].s)
      else None
  }

  /** `{ ...msg, peerId: ws.peerId }`: the sender's id overrides any `peerId`
      the sender wrote; an untagged sender leaves the key undefined, which
      `JSON.stringify` drops. */
  function Stamp(payload: map<string, Value>, sender: Option<string>): (r: map<string, Value>)
    ensures sender.Some? ==> "peerId" in r && r["peerId"] == Str(sender.value)
    ensures sender.None? ==> "peerId" !in r
    ensures forall k :: k != "peerId" ==> (k in r <==> k in payload)
    ensures forall k :: k in r && k != "peerId" ==> r[k] == payload[k]
  {
    if sender.Some? then payload["peerId" := Str(sender.value)] else payload - {"peerId"}
  }

  /** What the `message` handler sends for one inbound frame from connection
      `ws`, whose `peerId` tag is `sender`. */
  function Route(frame: Frame, sockets: map<string, Socket>, open: set<Socket>,
                 ws: Socket, sender: Option<string>): (r: seq<Send>)
    ensures |r| <= 1
    ensures r != [] ==> SignalTarget(frame).Some? && !StartsWith(SignalTarget(frame).value, BotPrefix)
  {
    match SignalTarget(frame)
    case None => []
    case Some(target) =>
      if StartsWith(target, BotPrefix) then []
      else if Listening(target, sockets, open) then
        [Send(sockets[target], Signal(Stamp(frame.value.fields, sender)))]
      else
        [Send(ws, Error(PeerNotAvailable))]
  }

  /** Malformed frames, other message types and non-string targets are ignored. */
  lemma RouteIgnoresNonSignals(frame: Frame, sockets: map<string, Socket>, open: set<Socket>,
                               ws: Socket, sender: Option<string>)
    requires frame.Malformed? || !frame.value.Object? || "type" !in frame.value.fields
          || frame.value.fields["type"] != Str("signal")
          || "targetId" !in frame.value.fields || !frame.value.fields["targetId"].Str?
    ensures Route(frame, sockets, open, ws, sender) == []
  {
  }

  /** A signal addressed to a bot id is dropped, whoever is registered. */
  lemma RouteDropsBotTargets(frame: Frame, sockets: map<string, Socket>, open: set<Socket>,
                             ws: Socket, sender: Option<string>)
    requires SignalTarget(frame).Some? && StartsWith(SignalTarget(frame).value, BotPrefix)
    ensures Route(frame, sockets, open, ws, sender) == []
  {
  }

  /** A signal to a registered, open peer goes to that peer only, carrying the
      sender's fields unchanged except `peerId`, which names the sender. */
  lemma RouteDelivers(frame: Frame, sockets: map<string, Socket>, open: set<Socket>,
                      ws: Socket, sender: Option<string>)
    requires SignalTarget(frame).Some?
    requires !StartsWith(SignalTarget(frame).value, BotPrefix)
    requires Listening(SignalTarget(frame).value, sockets, open)
    ensures var r := Route(frame, sockets, open, ws, sender);
      && |r| == 1
      && r[0].dest == sockets[SignalTarget(frame).value]
      && r[0].msg.Signal?
      && (sender.Some? ==> r[0].msg.payload["peerId"] == Str(sender.value))
      && (forall k :: k != "peerId" ==> (k in r[0].msg.payload <==> k in frame.value.fields))
      && (forall k :: k in r[0].msg.payload && k != "peerId" ==> r[0].msg.payload[k] == frame.value.fields[k])
  {
  }

  /** A signal to an id that is unknown or whose connection is not open is
      answered with one error, to the sender only. */
  lemma RouteRejects(frame: Frame, sockets: map<string, Socket>, open: set<Socket>,
                     ws: Socket, sender: Option<string>)
    requires SignalTarget(frame).Some?
    requires !StartsWith(SignalTarget(frame).value, BotPrefix)
    requires !Listening(SignalTarget(frame).value, sockets, open)
    ensures Route(frame, sockets, open, ws, sender) == [Send(ws, Error(PeerNotAvailable))]
  {
  }

  /** Peers have UUIDs, so a bot id never resolves to a peer: whatever the
      registry, a signal to a bot id is never delivered. */
  lemma BotIdsNeverResolve(sockets: map<string, Socket>, uuid: string)
    requires IsUuid(uuid)
    requires forall id :: id in sockets ==> IsUuid(id)
    ensures BotId(uuid) !in sockets
  {
    if BotId(uuid) in sockets {
      UuidIsNotBotId(BotId(uuid));
    }
  }

  // ---------------------------------------------------------------- sweep

  /** The bot record of `owner` exists and is older than the lifetime at `now`. */
  predicate Expires(owner: string, bots: map<string, Bot>, now: int, lifetime: Number) {
    owner in bots && Expired(now - bots[owner].createdAt, lifetime)
  }

  /** The owners whose records a sweep keeps, in order. */
  function Survivors(owners: seq<string>, bots: map<string, Bot>, now: int, lifetime: Number): (r: seq<string>)
    ensures forall k :: k in r ==> k in owners && !Expires(k, bots, now, lifetime)
  {
    if owners == [] then []
    else
      var o := owners[|owners| - 1];
      Survivors(owners[..|owners| - 1], bots, now, lifetime)
        + (if Expires(o, bots, now, lifetime) then [] else [o])
  }

  /** The owners a sweep notifies, in order: an expired record whose owner is
      registered with an open connection. */
  function Notified(owners: seq<string>, bots: map<string, Bot>, sockets: map<string, Socket>,
                    open: set<Socket>, now: int, lifetime: Number): (r: seq<string>)
    ensures forall k :: k in r ==> k in owners && Expires(k, bots, now, lifetime) && Listening(k, sockets, open)
  {
    if owners == [] then []
    else
      var o := owners[|owners| - 1];
      Notified(owners[..|owners| - 1], bots, sockets, open, now, lifetime)
        + (if Expires(o, bots, now, lifetime) && Listening(o, sockets, open) then [o] else [])
  }

  /** What a sweep sends, in order: a `peer-left` naming the expired bot to
      each notified owner. */
  function SweepNotices(owners: seq<string>, bots: map<string, Bot>, sockets: map<string, Socket>,
                        open: set<Socket>, now: int, lifetime: Number): (r: seq<Send>)
    ensures |r| <= |owners|
    ensures forall x :: x in r ==> x.msg.PeerLeft? && x.dest in open
  {
    if owners == [] then []
    else
      var o := owners[|owners| - 1];
      SweepNotices(owners[..|owners| - 1], bots, sockets, open, now, lifetime)
        + (if Expires(o, bots, now, lifetime) then Notice(o, bots, sockets, open) else [])
  }

  /** The notice for the expired record of `owner`: a `peer-left` naming the
      bot, sent to the owner when it listens, nothing otherwise. */
  function Notice(owner: string, bots: map<string, Bot>, sockets: map<string, Socket>,
                  open: set<Socket>): (r: seq<Send>)
    requires owner in bots
    ensures |r| <= 1
    ensures r != [] <==> Listening(owner, sockets, open)
    ensures forall x :: x in r ==> x == Send(sockets[owner], PeerLeft(bots[owner].id)) && x.dest in open
  {
    if Listening(owner, sockets, open) then [Send(sockets[owner], PeerLeft(bots[owner].id))] else []
  }

  /** Each notified owner receives one `peer-left` naming its own bot, in the
      order of the records, and nobody else receives anything. */
  lemma {:induction false} SweepNoticesReachOwners(owners: seq<string>, bots: map<string, Bot>,
                                                   sockets: map<string, Socket>, open: set<Socket>,
                                                   now: int, lifetime: Number)
    ensures var n := Notified(owners, bots, sockets, open, now, lifetime);
      && |SweepNotices(owners, bots, sockets, open, now, lifetime)| == |n|
      && forall j :: 0 <= j < |n| ==>
           && n[j] in bots && n[j] in sockets
           && SweepNotices(owners, bots, sockets, open, now, lifetime)[j] == Send(sockets[n[j]], PeerLeft(bots[n[j]].id))
  {
    var n := Notified(owners, bots, sockets, open, now, lifetime);
    assert forall j :: 0 <= j < |n| ==> n[j] in n;
    if owners != [] {
      SweepNoticesReachOwners(owners[..|owners| - 1], bots, sockets, open, now, lifetime);
    }
  }

  /** One more iteration of the sweep loop: the record at position `i` is
      kept, or else dropped and (when its owner listens) announced. */
  lemma SweepStep(owners: seq<string>, i: nat, bots: map<string, Bot>, sockets: map<string, Socket>,
                  open: set<Socket>, now: int, lifetime: Number)
    requires i < |owners|
    ensures Survivors(owners[..i + 1], bots, now, lifetime)
      == Survivors(owners[..i], bots, now, lifetime) + (if Expires(owners[i], bots, now, lifetime) then [] else [owners[i]])
    ensures SweepNotices(owners[..i + 1], bots, sockets, open, now, lifetime)
      == SweepNotices(owners[..i], bots, sockets, open, now, lifetime)
         + (if Expires(owners[i], bots, now, lifetime) then Notice(owners[i], bots, sockets, open) else [])
  {
    var prefix := owners[..i + 1];
    assert prefix[..|prefix| - 1] == owners[..i];
  }

  /** The sweep after visiting the first `i` of the records `owners` (in
      insertion order, taken from `records`): `remaining` has lost exactly the
      expired ones among them, with the rest of its records untouched, and
      `sent` holds their notices. */
  ghost predicate SweptThrough(owners: seq<string>, i: nat, records: map<string, Bot>,
                               sockets: map<string, Socket>, open: set<Socket>, now: int, lifetime: Number,
                               remaining: OrderedMap<string, Bot>, sent: seq<Send>)
  {
    && i <= |owners|
    && remaining.Valid()
    && remaining.keys == Survivors(owners[..i], records, now, lifetime) + owners[i..]
    && (forall o :: o in remaining.entries ==> o in records && remaining.entries[o] == records[o])
    && sent == SweepNotices(owners[..i], records, sockets, open, now, lifetime)
  }

  /** Before the first iteration nothing has been swept. */
  lemma SweepStart(bots: OrderedMap<string, Bot>, sockets: map<string, Socket>, open: set<Socket>,
                   now: int, lifetime: Number)
    requires bots.Valid()
    ensures SweptThrough(bots.keys, 0, bots.entries, sockets, open, now, lifetime, bots, [])
  {
    assert bots.keys[..0] == [];
  }

  /** The record at position `i` is still present, and unchanged, when the
      sweep reaches it. */
  lemma SweepReaches(owners: seq<string>, i: nat, records: map<string, Bot>,
                     sockets: map<string, Socket>, open: set<Socket>, now: int, lifetime: Number,
                     remaining: OrderedMap<string, Bot>, sent: seq<Send>)
    requires i < |owners|
    requires SweptThrough(owners, i, records, sockets, open, now, lifetime, remaining, sent)
    ensures owners[i] in remaining.entries && remaining.entries[owners[i]] == records[owners[i]]
  {
    assert owners[i] == owners[i..][0];
    assert owners[i] in remaining.keys;
  }

  /** The owner at position `i` heads the unvisited suffix and occurs nowhere
      else: neither later in it nor among the survivors of the visited prefix. */
  lemma SweepVisitsOnce(owners: seq<string>, i: nat, records: map<string, Bot>, now: int, lifetime: Number)
    requires Distinct(owners) && i < |owners|
    ensures owners[i..] == [owners[i]] + owners[i + 1..]
    ensures owners[i] !in owners[i + 1..]
    ensures owners[i] !in Survivors(owners[..i], records, now, lifetime)
  {
    assert owners[i] !in owners[i + 1..] by {
      assert forall j :: i < j < |owners| ==> owners[j] != owners[i];
    }
    assert owners[i] !in owners[..i] by {
      assert forall j :: 0 <= j < i ==> owners[j] != owners[i];
    }
  }

  /** An iteration that meets an expired record deletes it and adds its
      notice, extending the swept prefix by one. */
  lemma SweepDrops(owners: seq<string>, i: nat, records: map<string, Bot>,
                   sockets: map<string, Socket>, open: set<Socket>, now: int, lifetime: Number,
                   remaining: OrderedMap<string, Bot>, sent: seq<Send>)
    requires Distinct(owners) && i < |owners|
    requires SweptThrough(owners, i, records, sockets, open, now, lifetime, remaining, sent)
    requires Expires(owners[i], records, now, lifetime)
    ensures SweptThrough(owners, i + 1, records, sockets, open, now, lifetime,
                         remaining.Delete(owners[i]), sent + Notice(owners[i], records, sockets, open))
  {
    var o, rest := owners[i], owners[i + 1..];
    var kept := Survivors(owners[..i], records, now, lifetime);
    assert remaining.keys == kept + [o] + rest by {
      SweepVisitsOnce(owners, i, records, now, lifetime);
      assert kept + ([o] + rest) == kept + [o] + rest;
    }
    assert Remove(remaining.keys, o) == kept + rest by {
      SweepVisitsOnce(owners, i, records, now, lifetime);
      RemoveSplit(kept, o, rest);
    }
    assert Survivors(owners[..i + 1], records, now, lifetime) == kept by {
      SweepStep(owners, i, records, sockets, open, now, lifetime);
      assert kept + [] == kept;
    }
    assert SweepNotices(owners[..i + 1], records, sockets, open, now, lifetime)
        == sent + Notice(o, records, sockets, open) by {
      SweepStep(owners, i, records, sockets, open, now, lifetime);
    }
  }

  /** An iteration that meets a live record keeps it and sends nothing,
      extending the swept prefix by one. */
  lemma SweepKeeps(owners: seq<string>, i: nat, records: map<string, Bot>,
                   sockets: map<string, Socket>, open: set<Socket>, now: int, lifetime: Number,
                   remaining: OrderedMap<string, Bot>, sent: seq<Send>)
    requires i < |owners|
    requires SweptThrough(owners, i, records, sockets, open, now, lifetime, remaining, sent)
    requires !Expires(owners[i], records, now, lifetime)
    ensures SweptThrough(owners, i + 1, records, sockets, open, now, lifetime, remaining, sent)
  {
    var o, rest := owners[i], owners[i + 1..];
    var kept := Survivors(owners[..i], records, now, lifetime);
    assert remaining.keys == (kept + [o]) + rest by {
      assert owners[i..] == [o] + rest;
      assert kept + ([o] + rest) == (kept + [o]) + rest;
    }
    assert Survivors(owners[..i + 1], records, now, lifetime) == kept + [o] by {
      SweepStep(owners, i, records, sockets, open, now, lifetime);
    }
    assert SweepNotices(owners[..i + 1], records, sockets, open, now, lifetime) == sent by {
      SweepStep(owners, i, records, sockets, open, now, lifetime);
      assert sent + [] == sent;
    }
  }

  /** After the last iteration the remaining records are exactly the ones
      that have not expired. */
  lemma SweepFinish(owners: seq<string>, records: map<string, Bot>,
                    sockets: map<string, Socket>, open: set<Socket>, now: int, lifetime: Number,
                    remaining: OrderedMap<string, Bot>, sent: seq<Send>)
    requires SweptThrough(owners, |owners|, records, sockets, open, now, lifetime, remaining, sent)
    ensures remaining.keys == Survivors(owners, records, now, lifetime)
    ensures sent == SweepNotices(owners, records, sockets, open, now, lifetime)
  {
    var kept := Survivors(owners, records, now, lifetime);
    assert owners[..|owners|] == owners;
    assert owners[|owners|..] == [];
    assert kept + [] == kept;
  }

  /** The records that remain once the sweep is over are exactly the live
      ones, unchanged. */
  lemma SweepLeavesLive(owners: seq<string>, records: map<string, Bot>, now: int, lifetime: Number,
                        remaining: OrderedMap<string, Bot>)
    requires forall o :: o in records <==> o in owners
    requires remaining.Valid() && remaining.keys == Survivors(owners, records, now, lifetime)
    requires forall o :: o in remaining.entries ==> o in records && remaining.entries[o] == records[o]
    ensures remaining.entries == map o | o in records && !Expires(o, records, now, lifetime) :: records[o]
  {
    assert forall o :: o in remaining.entries <==> o in records && !Expires(o, records, now, lifetime) by {
      SweepMembers(owners, records, map[], {}, now, lifetime);
    }
  }

  /** A sweep keeps exactly the records that have not expired, and notifies
      exactly the owners of expired records who are still connected. */
  lemma {:induction false} SweepMembers(owners: seq<string>, bots: map<string, Bot>,
                                        sockets: map<string, Socket>, open: set<Socket>,
                                        now: int, lifetime: Number)
    ensures forall k :: k in Survivors(owners, bots, now, lifetime) <==>
      k in owners && !Expires(k, bots, now, lifetime)
    ensures forall k :: k in Notified(owners, bots, sockets, open, now, lifetime) <==>
      k in owners && Expires(k, bots, now, lifetime) && Listening(k, sockets, open)
  {
    if owners != [] {
      var init := owners[..|owners| - 1];
      SweepMembers(init, bots, sockets, open, now, lifetime);
      assert owners == init + [owners[|owners| - 1]];
    }
  }

  /** Records are visited once each, so no record is kept twice and no owner
      is notified twice. */
  lemma {:induction false} SweepOnce(owners: seq<string>, bots: map<string, Bot>,
                                     sockets: map<string, Socket>, open: set<Socket>,
                                     now: int, lifetime: Number)
    requires Distinct(owners)
    ensures Distinct(Survivors(owners, bots, now, lifetime))
    ensures Distinct(Notified(owners, bots, sockets, open, now, lifetime))
  {
    if owners != [] {
      var init, last := owners[..|owners| - 1], owners[|owners| - 1];
      SweepOnce(init, bots, sockets, open, now, lifetime);
      SweepMembers(init, bots, sockets, open, now, lifetime);
      assert owners == init + [last];
      assert last !in init;
    }
  }

  /** A record is expired only once it is strictly older than the lifetime. */
  lemma ExpiryIsStrict(owner: string, bots: map<string, Bot>, lifetime: int)
    requires owner in bots
    ensures !Expires(owner, bots, bots[owner].createdAt + lifetime, Int(lifetime))
    ensures Expires(owner, bots, bots[owner].createdAt + lifetime + 1, Int(lifetime))
  {
  }

  /** With a lifetime that `parseInt` could not read (NaN), a sweep keeps
      every record and notifies nobody. */
  lemma {:induction false} NaNLifetimeKeepsEveryBot(owners: seq<string>, bots: map<string, Bot>,
                                                    sockets: map<string, Socket>, open: set<Socket>, now: int)
    ensures Survivors(owners, bots, now, NaN) == owners
    ensures Notified(owners, bots, sockets, open, now, NaN) == []
  {
    if owners != [] {
      var init, last := owners[..|owners| - 1], owners[|owners| - 1];
      NaNLifetimeKeepsEveryBot(init, bots, sockets, open, now);
      assert !Expires(last, bots, now, NaN);
      assert Survivors(owners, bots, now, NaN) == init + [last];
      assert Notified(owners, bots, sockets, open, now, NaN) == [] + [];
    }
  }
}
