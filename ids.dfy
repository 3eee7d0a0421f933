/** Peer and bot identifiers. Peer ids are what `randomUUID()` returns; a bot
    id is the reserved prefix followed by the first 18 characters of another
    UUID (main.ts:15). */
module Ids {

  const BotPrefix: string := "bot-"

  /** `s.startsWith(p)`. */
  predicate StartsWith(s: string, p: string) {
    |p| <= |s| && s[..|p|] == p
  }

  predicate IsLowerHex(c: char) {
    '0' <= c <= '9' || 'a' <= c <= 'f'
  }

  /** The textual form of a random (version 4) UUID: 36 characters, lower-case
      hexadecimal digits with dashes at positions 8, 13, 18 and 23. */
  predicate IsUuid(s: string) {
    && |s| == 36
    && (forall i :: 0 <= i < |s| ==>
          if i == 8 || i == 13 || i == 18 || i == 23 then s[i] == '-' else IsLowerHex(s[i]))
  }

  /** `bot-${uuid.slice(0, 18)}`. */
  function BotId(uuid: string): (r: string)
    requires IsUuid(uuid)
    ensures StartsWith(r, BotPrefix)
    ensures |r| == |BotPrefix| + 18 && r[|BotPrefix|..] == uuid[..18]
  {
    BotPrefix + uuid[..18]
  }

  /** A peer id never carries the bot prefix, so no peer is mistaken for a bot
      and no bot id equals a peer id. */
  lemma UuidIsNotBotId(s: string)
    requires IsUuid(s)
    ensures !StartsWith(s, BotPrefix)
  {
    assert s[..|BotPrefix|] != BotPrefix by {
      assert IsLowerHex(s[1]);
      assert s[..|BotPrefix|][1] == s[1];
    }
  }

  /** Hence a minted bot id never equals a peer id. */
  lemma BotIdIsNeverPeerId(peer: string, uuid: string)
    requires IsUuid(peer) && IsUuid(uuid)
    ensures BotId(uuid) != peer
  {
    UuidIsNotBotId(peer);
  }
}
