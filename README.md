# Signaling relay: a Dafny model

This project models the core of a small WebRTC signaling server written in
TypeScript for Bun. The server keeps a registry of connected peers. It tells
each newcomer who else is there, or gives it a synthetic "bot" peer when it is
alone. It announces joins and departures, and forwards `signal` messages
between peers. A periodic sweep expires the bot records. The HTTP boundary
decides which cross-origin callers are allowed and builds the response
headers.

The model has these modules:

- `Cors` (cors.dfy): the origin decision, the header record and the 405
  refusal, as pure functions of the environment settings and request headers.
- `OrderedMaps` (ordered_maps.dfy): JavaScript's `Map`, a dictionary whose
  keys iterate in insertion order. It carries the invariant that the key
  order lists every key exactly once.
- `Ids` (ids.dfy): the shape of a `randomUUID()` value and the `bot-` ids made
  from one.
- `Lifetime` (lifetime.dfy): `BOT_LIFETIME_MS` read through `parseInt`, which
  is modelled down to white space, sign, `0x` prefix, digit prefix and NaN.
  It also holds the strict expiry test.
- `Json` (json.dfy): inbound frames as `JSON.parse` leaves them; a number
  is the opaque text of its numeral. `Options`
  (options.dfy) covers `null`/`undefined` and `??`.
- `Signaling` (signaling.dfy): the outbound messages, and functions that say
  which messages each event produces. These cover who hears a join or a
  leave, where a signal goes, and which bot records a sweep keeps or
  announces. The lemmas about those functions are here too.
- `SignalingServer` (server.dfy): the server itself. It is a class whose
  fields are the two maps, the `peerId` tag written on each connection, the
  set of OPEN connections and an `outbox` recording every `send` in order.
  The `open`, `message` and `close` handlers and the sweep are methods; those
  of `open`, `close` and the sweep contain loops. Each method is proved
  against the `Signaling` functions.

Where the design description and the code differ, the model follows the
code:

- There is no `hello` message. A peer is announced as soon as its connection
  opens.
- No metadata is stored.
- `init.peers` is a plain list of ids, and `peer-joined` carries only the id.
- A bot is minted whenever the newcomer is alone; there is no switch to turn
  bots off.
- There is no alert for a lone visitor in the relay's own logic.

## Model

| member | source | states |
|---|---|---|
| Cors.Whitelist | cors.ts:7 | the whitelist is the configured official origin, or `https://demo.netismic.com` when none is configured |
| Cors.RestrictOrigin | cors.ts:3-17 | in development (`DEV` is `"1"`) the result is `*`; otherwise an origin is allowed iff the request's `Origin` is present, non-empty and whitelisted, and then it is that header's value |
| Cors.ProductionAllowsOnlyWhitelist | cors.ts:7-16 | outside development the only origin ever allowed is the configured (or default) one; an empty configured origin allows nothing |
| Cors.MakeHeaders | cors.ts:19-28 | `Content-Type` is the given type; `Access-Control-Allow-Origin` is present iff an origin is given, and then equals it; `Access-Control-Allow-Headers` echoes the request's `access-control-request-headers` or is `*`; `Access-Control-Allow-Methods` is the given methods or `GET, POST, OPTIONS`; there are no other headers |
| Cors.AllowedOriginOrResponse | cors.ts:30-36 | a 405 `Not allowed` response, whose headers allow no origin, exactly when the origin decision is null; otherwise the allowed origin |
| Cors.DevNeverRefuses | cors.ts:30-35 | in development every request is allowed with `*` |
| Lifetime.ParseInt | main.ts:12 | `parseInt` yields a number only when the text after leading white space starts with a decimal digit or a sign |
| Lifetime.ReadMagnitude | main.ts:12 | after the sign, `parseInt` yields a number only when the text starts with a decimal digit (a `0x` prefix starts with `0`) |
| Lifetime.MagnitudeOfNumeral | main.ts:12 | the unsigned part reads a decimal numeral as the number it denotes |
| Lifetime.ParseIntWithoutDigits | main.ts:12 | a setting with no digit after the white space and optional sign (blank, a lone sign, a word) is NaN |
| Lifetime.ParseIntSigned | main.ts:12 | a `-` before a decimal numeral negates it and a `+` keeps it |
| Lifetime.ParseIntAfterSign | main.ts:12 | a sign followed by a decimal numeral is read as the signed number |
| Lifetime.ParseIntHex | main.ts:12 | after a `0x` or `0X` prefix, any hexadecimal numeral is read in radix 16 as the number it denotes |
| Lifetime.MagnitudeOfHex | main.ts:12 | the unsigned part reads a `0x`/`0X`-prefixed hexadecimal numeral in radix 16 |
| Lifetime.ParseIntUnsigned | main.ts:12 | text that starts with neither white space nor a sign is read by the unsigned part alone |
| Lifetime.BotLifetimeMs | main.ts:12 | an absent or empty `BOT_LIFETIME_MS` gives 20000 ms; any other value gives `parseInt` of it |
| Lifetime.TrimStart | main.ts:12 | `parseInt` skips exactly the leading ECMAScript white space |
| Lifetime.DigitCount | main.ts:12 | `parseInt` reads the longest prefix of digits of the radix |
| Lifetime.ParseIntDecimal | main.ts:12 | `parseInt` reads back any decimal numeral as the number it denotes |
| Lifetime.ConfiguredLifetime | main.ts:12 | a lifetime configured as a decimal numeral is that many milliseconds |
| Lifetime.ParseIntStopsAtExponent | main.ts:12 | a lifetime written `2e4` is read as 2 ms, not 20000 |
| Lifetime.Expired | main.ts:112 | a record expires only under a numeric lifetime, and then exactly when its age exceeds it |
| Lifetime.NaNNeverExpires | main.ts:112 | when the lifetime is NaN the expiry comparison is false at every age |
| Ids.BotId | main.ts:15 | a bot id is `bot-` followed by the first 18 characters of a fresh UUID |
| Ids.UuidIsNotBotId | main.ts:52 | no UUID starts with `bot-` |
| Ids.BotIdIsNeverPeerId | main.ts:15 | a minted bot id never equals a peer id |
| OrderedMaps.OrderedMap.Set | main.ts:54 | `set` stores the value; an existing key keeps its place in the order, a new key goes last, and keys stay distinct |
| OrderedMaps.OrderedMap.Delete | main.ts:97 | `delete` removes the key from the entries and from the order, leaving the rest in order |
| OrderedMaps.Remove | main.ts:57 | filtering out an id leaves no occurrence of it, adds nothing and never lengthens the list |
| OrderedMaps.RemoveMembers | main.ts:57 | filtering out an id keeps exactly the other ids |
| Signaling.Audience | main.ts:66-70 | the ids a broadcast writes to are registered, open and not the skipped id |
| Signaling.AudienceExactly | main.ts:66-70 | a broadcast reaches every registered open peer other than the skipped one, and each of them once |
| Signaling.BroadcastsReachAudience | main.ts:66-70 | a broadcast sends the message once to the connection of each audience member, in registry order, and nowhere else |
| Signaling.InitPeers | main.ts:62 | the `init` list is never empty; it holds only other ids or the bot id, and names the bot only when there are no others |
| Signaling.InitListsPreviousPeers | main.ts:54-57 | after registering a fresh id, the other ids are exactly the previously registered ones, in registry order |
| Signaling.InitNeverListsSelf | main.ts:57-63 | the `init` list never names the newcomer and is never empty |
| Signaling.LoneNewcomerSeesOneBot | main.ts:62 | a newcomer alone in the registry is sent exactly one id, a `bot-` id |
| Signaling.JoinAudience | main.ts:66-70 | `peer-joined` reaches exactly the other registered peers whose connection is open, once each |
| Signaling.LeaveAudience | main.ts:97-104 | after a departure, `peer-left` reaches exactly the remaining open peers, once each, and never the leaver |
| Signaling.Stamp | main.ts:84 | the forwarded payload keeps every field of the original except `peerId`, which names the sender, or is dropped when the sender has no tag |
| Signaling.SignalTarget | main.ts:75-77 | a frame has a target exactly when it parsed to an object whose `type` is `"signal"` and whose `targetId` is a string, and the target is that string |
| Signaling.Route | main.ts:73-92 | a frame produces at most one send, and only for a `signal` with a string target that is not a bot id |
| Signaling.RouteIgnoresNonSignals | main.ts:74-91 | malformed frames, other types and non-string targets produce nothing |
| Signaling.RouteDropsBotTargets | main.ts:78-81 | a signal to a `bot-` id produces nothing |
| Signaling.RouteDelivers | main.ts:82-84 | a signal to a registered open peer is sent to that peer only, with the original fields and `peerId` set to the sender |
| Signaling.RouteRejects | main.ts:85-87 | a signal to any other target is answered with one `Peer not available` error to the sender |
| Signaling.BotIdsNeverResolve | main.ts:78-82 | a bot id is never a registered peer, so it could not be delivered to |
| Signaling.Survivors | main.ts:111-121 | the records a sweep keeps are visited records that have not expired |
| Signaling.Notified | main.ts:113-118 | the owners a sweep notifies have an expired record and are registered with an open connection |
| Signaling.SweepNotices | main.ts:113-118 | a sweep sends at most one message per record, each a `peer-left` to an open connection |
| Signaling.Notice | main.ts:113-118 | the notice for an expired record is sent iff its owner is registered and open, and is one `peer-left` naming the owner's bot, to the owner's connection |
| Signaling.SweepNoticesReachOwners | main.ts:113-118 | each notified owner receives one `peer-left` naming its own bot, in record order, and nobody else receives anything |
| Signaling.SweepMembers | main.ts:111-121 | a sweep keeps exactly the unexpired records and notifies exactly the open owners of expired records |
| Signaling.SweepOnce | main.ts:111-121 | no record is kept twice and no owner is notified twice |
| Signaling.ExpiryIsStrict | main.ts:112 | a record exactly as old as the lifetime survives; one millisecond older expires |
| Signaling.NaNLifetimeKeepsEveryBot | main.ts:112 | with a NaN lifetime a sweep keeps every record and notifies nobody |
| Signaling.SweepDrops | main.ts:112-119 | a sweep iteration that meets an expired record deletes it and adds its notice |
| Signaling.SweepKeeps | main.ts:112 | a sweep iteration that meets a live record changes nothing |
| SignalingServer.Server.constructor | main.ts:7-12 | the server starts with both maps empty, nothing sent, and the configured lifetime |
| SignalingServer.Server.SetReadyState | main.ts:67 | the transport marks a connection OPEN or not, the state the handlers test before a send; nothing else changes |
| SignalingServer.Server.Register | main.ts:52-54 | the connection is tagged with the new id and the id is entered in the registry; registry ids stay distinct UUIDs |
| SignalingServer.Server.MakeBotPeerData | main.ts:14-20 | returns `BotId` of the fresh UUID and records it with the current time against the peer, replacing any earlier record |
| SignalingServer.Server.Greet | main.ts:56-63 | the newcomer is sent one `init` listing the other ids in registry order; only when there are none is a bot minted, recorded and listed |
| SignalingServer.Server.Open | main.ts:50-71 | for a connection not seen before, the registry gains the new id; the newcomer's `init` is sent first, then one `peer-joined` to every other open peer in registry order; the bot map changes only for a lone newcomer |
| SignalingServer.Server.Broadcast | main.ts:66-70 | walking the registry appends exactly the broadcast to the audience, in order |
| SignalingServer.Server.Message | main.ts:73-92 | only the outbox changes, by exactly the routed sends |
| SignalingServer.Server.Close | main.ts:94-106 | a tagged connection's id leaves the registry and each remaining open peer is sent one `peer-left`; an untagged connection changes nothing; bot records are untouched |
| SignalingServer.Server.Sweep | main.ts:110-122 | the bot map keeps exactly the unexpired records, in order and unchanged; the outbox gains exactly the sweep's notices; the registry is untouched |
| SignalingServer.SweepRecords | main.ts:111-121 | the sweep loop, deleting while iterating, leaves exactly the survivors in their order and collects exactly the notices |
| SignalingServer.SweepOne | main.ts:112-119 | one iteration of the sweep loop keeps the swept prefix consistent |

## Left out

- telegram.ts is not part of this model: it is an outbound HTTP alert to an external API.
- metrics.ts is not part of this model: it formats wall-clock uptime with floating point.
- The `fetch` handler (main.ts:22-47) is left out. It covers the connection upgrade, the `/status` route and the 404 response; this is Bun plumbing over the modelled CORS functions.
- The client-IP computation and the log line in cors.ts (cors.ts:8-12) only feed logging, so they are left out; so is every `console.log`.
- `JSON.parse` and `JSON.stringify` are not modelled. Inbound frames arrive already parsed, as `Json.Frame`. Outbound messages are `Signaling.OutMsg` values, and their key order on the wire is not modelled.
- `randomUUID()` and `Date.now()` are parameters of the methods. Their results are assumed to have the shape `randomUUID` produces.
- `WebSocket.readyState` is modelled as the set of OPEN connections. Only the transport changes it, through `Server.SetReadyState`.
- `setInterval` scheduling is left out. `Server.Sweep` is the callback, which the environment calls with the current time.
- Lifetime.ParseInt: does not model the loss of precision of numerals above 2^53, because `parseInt` returns a double and the model returns an exact integer.
- Cors.Get: header names are looked up by their lower-case form, standing in for the case-insensitive `Headers.get`.
- SignalingServer.Server.Sweep: reads the clock once, as `now`, and tests every record against that one time. The source calls `Date.now()` again for each record, so a record that expires while the loop is running can be dropped there but kept by the model.
- SignalingServer.SweepRecords: takes one `now` for the whole loop, for the same reason as `Server.Sweep`. Its result is the source's result when the clock does not move during the loop.
- Json.Value: a number is kept as the text of its numeral. The relay never reads payload numbers, and re-serialising them with `JSON.stringify` (which may rewrite `1.0` as `1`) is not modelled.
- SignalingServer.Server.Sweep: the loop over the bot map runs on a snapshot of its key order, in `SweepRecords`, and the notices are appended after it. Nothing else runs during the sweep, so the messages and their order are the same as sending inside the loop.
