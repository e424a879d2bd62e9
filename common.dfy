/** Small shared definitions: an optional value and the JavaScript notion of a
    "truthy" optional string. */
module Common {

  /** A value that may be absent (JavaScript `null` / `undefined`). */
  datatype Option<T> = None | Some(value: T)

  /** JavaScript truthiness of an optional string: present and not empty. */
  predicate Truthy(o: Option<string>) {
    o.Some? && o.value != ""
  }

  /** `o || fallback` for an optional string. */
  function OrElse(o: Option<string>, fallback: string): string {
    if Truthy(o) then o.value else fallback
  }

  /** `Array.prototype.findIndex`: the first index whose element satisfies
      `p`, if any. */
  function FindFirst<T>(xs: seq<T>, p: T -> bool): (i: Option<nat>)
    ensures i.Some? ==> i.value < |xs| && p(xs[i.value]) && forall j :: 0 <= j < i.value ==> !p(xs[j])
    ensures i.None? ==> forall j :: 0 <= j < |xs| ==> !p(xs[j])
  {
    if xs == [] then None
    else if p(xs[0]) then Some(0)
    else match FindFirst(xs[1..], p)
      case None => None
      case Some(k) => Some(k + 1)
  }
}

/** The shapes of the shared configuration file: map size, rooms, spawn points
    and doorways. Both the server and the game client read them. */
module World {
  import opened Common

  /** A room identifier. JavaScript falsy room values (`undefined`, `null`,
      `""`) are represented by `None` wherever a room is optional, so a room
      identifier itself is never empty. */
  type RoomId = s: string | s != "" witness "hub"

  const Hub: RoomId := "hub"

  datatype Pos = Pos(x: int, y: int)

  /** The side of a room a doorway sits on; anything else in the file is `Other`. */
  datatype Side = Top | Bottom | Left | Right | Other

  datatype Doorway = Doorway(direction: Side, x: int, y: int, width: int, targetRoom: string)

  datatype RoomConfig = RoomConfig(
    roomId: RoomId,
    name: string,
    spawnPoint: Pos,
    doorways: Option<seq<Doorway>>,
    color: string)

  datatype MapInfo = MapInfo(width: int, height: int)
}
