/** The `peanutAnimation` event on the wire, from the sending client through
    the server to the receiving client (public/game.js, server/index.js,
    public/app.js). A JSON message is a map from field names to string
    values; a field that is undefined is absent, as `JSON.stringify` drops
    it. */
module PeanutWire {
  import opened Common
  import opened GameClient

  type Json = map<string, string>

  function Field(m: Json, name: string): Option<string> {
    if name in m then Some(m[name]) else None
  }

  /** `sendPeanutAnimation(type)`: the animation travels as `animation`. */
  function SentAnimation(animation: string): (m: Json)
    ensures Field(m, "animation") == Some(animation) && Field(m, "animationType").None?
  {
    map["type" := "peanutAnimation", "animation" := animation]
  }

  /** The server's relay as written: the sender is `from` and the animation
      is read from `animationType`. */
  function RelayedAsWritten(from: string, m: Json): (r: Json)
    ensures Field(r, "from") == Some(from)
    ensures Field(r, "animationType") == Field(m, "animationType")
    ensures Field(r, "userId").None? && Field(r, "animation").None?
  {
    var base := map["type" := "peanutAnimation", "from" := from];
    if "animationType" in m then base["animationType" := m["animationType"]] else base
  }

  /** The receiving client's dispatch: `handlePeanutAnimation(message.userId,
      message.animation)`. */
  function Delivered(players: map<string, Player>, r: Json, now: int): map<string, Player> {
    PeanutAnimationEffect(players, Field(r, "userId"), Field(r, "animation"), now)
  }

  /** As written, no animation a client sends ever reaches another client:
      the relayed message carries neither `userId` nor `animation`. */
  lemma RemoteAnimationIsLost(players: map<string, Player>, from: string, animation: string, now: int)
    ensures Delivered(players, RelayedAsWritten(from, SentAnimation(animation)), now) == players
  {
  }

  /** The relay the two clients evidently expect: the sender as `userId` and
      the animation under the name it was sent with. */
  function Relayed(from: string, m: Json): (r: Json)
    ensures Field(r, "userId") == Some(from)
    ensures Field(r, "animation") == Field(m, "animation")
  {
    var base := map["type" := "peanutAnimation", "userId" := from];
    if "animation" in m then base["animation" := m["animation"]] else base
  }

  /** With the corrected relay a nod sent by a peanut player starts that
      player's nod on every receiving client, from frame 0, and no other
      player changes. */
  lemma RemoteNodArrives(players: map<string, Player>, from: string, now: int)
    requires from in players && players[from].color == Some(PeanutColor)
    ensures var t := Delivered(players, Relayed(from, SentAnimation("nod")), now);
      && t.Keys == players.Keys
      && t[from].peanutNodding && t[from].peanutNodFrame == 0
      && forall id :: id in players && id != from ==> t[id] == players[id]
  {
    var r := Relayed(from, SentAnimation("nod"));
    assert Field(r, "userId") == Some(from) && Field(r, "animation") == Some("nod");
  }
}
