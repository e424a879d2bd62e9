/** Room and doorway logic of the game client (public/game.js): room lookup,
    the walkable area, doorway trigger zones and where a player appears after
    walking through a doorway. */
module GameRooms {
  import opened Common
  import opened World

  /** `rooms.find(r => r.roomId === id)`. */
  function FindRoom(rooms: seq<RoomConfig>, id: string): (found: Option<RoomConfig>)
    ensures found.Some? ==> found.value in rooms && found.value.roomId == id
    ensures found.None? ==> forall r :: r in rooms ==> r.roomId != id
  {
    match FindFirst(rooms, (r: RoomConfig) => r.roomId == id)
    case None => None
    case Some(i) => Some(rooms[i])
  }

  /** The room `setRooms` selects: the hub if present, else the first room
      (nothing for an empty list). */
  function InitialRoom(rooms: seq<RoomConfig>): (current: Option<RoomConfig>)
    ensures current.Some? <==> rooms != []
    ensures (exists r :: r in rooms && r.roomId == Hub) ==> current.Some? && current.value.roomId == Hub
    ensures (forall r :: r in rooms ==> r.roomId != Hub) && rooms != [] ==> current == Some(rooms[0])
  {
    match FindRoom(rooms, Hub)
    case Some(hub) => Some(hub)
    case None => if rooms == [] then None else Some(rooms[0])
  }

  /** `doorways.find(d => d.targetRoom === target)`, nothing when the room
      lists no doorways. */
  function FindDoorway(doorways: Option<seq<Doorway>>, target: string): (found: Option<Doorway>)
    ensures found.Some? ==> doorways.Some? && found.value in doorways.value && found.value.targetRoom == target
    ensures found.None? && doorways.Some? ==> forall d :: d in doorways.value ==> d.targetRoom != target
  {
    if doorways.None? then None
    else match FindFirst(doorways.value, (d: Doorway) => d.targetRoom == target)
      case None => None
      case Some(i) => Some(doorways.value[i])
  }

  /** `findHubDoorwayFromRoom(from)`: the hub's doorway leading to `from`. */
  function FindHubDoorwayFromRoom(rooms: seq<RoomConfig>, from: string): (found: Option<Doorway>)
    ensures found.Some? ==> found.value.targetRoom == from
    ensures found.Some? ==> exists hub :: hub in rooms && hub.roomId == Hub && hub.doorways.Some? && found.value in hub.doorways.value
  {
    match FindRoom(rooms, Hub)
    case None => None
    case Some(hub) => FindDoorway(hub.doorways, from)
  }

  const Margin := 20

  /** `isValidPosition(x, y)`: inside the map by at least the margin on
      every side; anything goes before the map is known. */
  function IsValidPosition(worldMap: Option<MapInfo>, x: int, y: int): (valid: bool)
    ensures worldMap.None? ==> valid
    ensures worldMap.Some? ==> (valid <==>
      Margin <= x <= worldMap.value.width - Margin && Margin <= y <= worldMap.value.height - Margin)
  {
    match worldMap
    case None => true
    case Some(m) => !(x < Margin || x > m.width - Margin) && !(y < Margin || y > m.height - Margin)
  }

  /** Whether `a` lies within `center ± width / 2`; doubled to stay in the
      integers. */
  predicate WithinSpan(a: int, center: int, width: int) {
    2 * center - width <= 2 * a <= 2 * center + width
  }

  /** The trigger zone of a doorway in `checkRoomTransition`: within 30 of
      the doorway's side and within half the doorway's width of its centre. */
  predicate InDoorway(d: Doorway, p: Pos, m: MapInfo) {
    match d.direction
    case Top => p.y < 30 && WithinSpan(p.x, d.x, d.width)
    case Bottom => p.y > m.height - 30 && WithinSpan(p.x, d.x, d.width)
    case Left => p.x < 30 && WithinSpan(p.y, d.y, d.width)
    case Right => p.x > m.width - 30 && WithinSpan(p.y, d.y, d.width)
    case Other => false
  }

  /** The first doorway of the room whose zone holds the player. */
  function FirstDoorway(room: RoomConfig, p: Pos, m: MapInfo): (found: Option<Doorway>)
    ensures found.Some? ==> room.doorways.Some? && found.value in room.doorways.value && InDoorway(found.value, p, m)
    ensures found.None? && room.doorways.Some? ==> forall d :: d in room.doorways.value ==> !InDoorway(d, p, m)
  {
    if room.doorways.None? then None
    else match FindFirst(room.doorways.value, (d: Doorway) => InDoorway(d, p, m))
      case None => None
      case Some(i) => Some(room.doorways.value[i])
  }

  /** Where a player appears next to doorway `d`: the doorway's coordinates
      (`x || 400`, `y || 300`) moved 80 inside the map on the doorway's side. */
  function DoorwaySpawn(d: Doorway, m: MapInfo): (p: Pos)
    ensures d.direction == Top ==> p.y == 80
    ensures d.direction == Bottom ==> p.y == m.height - 80
    ensures d.direction == Left ==> p.x == 80
    ensures d.direction == Right ==> p.x == m.width - 80
    ensures d.direction in {Top, Bottom, Other} ==> p.x == if d.x != 0 then d.x else 400
    ensures d.direction in {Left, Right, Other} ==> p.y == if d.y != 0 then d.y else 300
  {
    var x := if d.x != 0 then d.x else 400;
    var y := if d.y != 0 then d.y else 300;
    match d.direction
    case Top => Pos(x, 80)
    case Bottom => Pos(x, m.height - 80)
    case Left => Pos(80, y)
    case Right => Pos(m.width - 80, y)
    case Other => Pos(x, y)
  }

  /** The doorway `transitionToRoom` places the player at: for the hub, the
      hub's doorway to the room being left; for any other room, a doorway of
      the target room leading to the target room itself (the lookup runs
      after the current room has been switched). */
  function ArrivalDoorway(rooms: seq<RoomConfig>, previous: RoomConfig, target: RoomConfig): Option<Doorway> {
    if target.roomId == Hub then FindHubDoorwayFromRoom(rooms, previous.roomId)
    else FindDoorway(target.doorways, target.roomId)
  }

  /** The spawn position of `transitionToRoom`: next to the arrival doorway,
      or the target's spawn point when there is none. */
  function Arrival(rooms: seq<RoomConfig>, previous: RoomConfig, target: RoomConfig, m: MapInfo): (p: Pos)
    ensures ArrivalDoorway(rooms, previous, target).None? ==> p == target.spawnPoint
    ensures ArrivalDoorway(rooms, previous, target).Some? ==> p == DoorwaySpawn(ArrivalDoorway(rooms, previous, target).value, m)
  {
    match ArrivalDoorway(rooms, previous, target)
    case None => target.spawnPoint
    case Some(d) => DoorwaySpawn(d, m)
  }

  /** Entering the hub from a room the hub has a doorway to puts the player
      beside that doorway, 80 inside the hub's edge. */
  lemma HubArrivalBesideDoorway(rooms: seq<RoomConfig>, previous: RoomConfig, target: RoomConfig, m: MapInfo)
    requires target.roomId == Hub
    requires FindHubDoorwayFromRoom(rooms, previous.roomId).Some?
    ensures var d := FindHubDoorwayFromRoom(rooms, previous.roomId).value;
      d.targetRoom == previous.roomId && Arrival(rooms, previous, target, m) == DoorwaySpawn(d, m)
  {
  }

  /** Entering any other room uses its spawn point unless the room has a
      doorway leading to itself. */
  lemma OtherArrivalUsesSpawnPoint(rooms: seq<RoomConfig>, previous: RoomConfig, target: RoomConfig, m: MapInfo)
    requires target.roomId != Hub
    requires target.doorways.Some? ==> forall d :: d in target.doorways.value ==> d.targetRoom != target.roomId
    ensures Arrival(rooms, previous, target, m) == target.spawnPoint
  {
  }

  /** A player placed next to a top or bottom doorway is outside every top
      and bottom trigger zone, and one placed next to a left or right doorway
      outside every left and right zone, once the map is more than 110 in
      that dimension: arriving never immediately triggers the way back. */
  lemma ArrivalDoesNotRetrigger(d: Doorway, e: Doorway, m: MapInfo)
    requires m.width > 110 && m.height > 110
    requires d.direction == e.direction || (d.direction in {Top, Bottom} && e.direction in {Top, Bottom})
      || (d.direction in {Left, Right} && e.direction in {Left, Right})
    ensures !InDoorway(e, DoorwaySpawn(d, m), m)
  {
  }

  /** A doorway whose coordinates lie inside the walkable area gives a
      walkable arrival position when the map is at least 160 across. */
  lemma DoorwaySpawnIsValid(d: Doorway, m: MapInfo)
    requires m.width >= 160 && m.height >= 160
    requires d.direction != Other
    requires d.direction in {Top, Bottom} ==> Margin <= (if d.x != 0 then d.x else 400) <= m.width - Margin
    requires d.direction in {Left, Right} ==> Margin <= (if d.y != 0 then d.y else 300) <= m.height - Margin
    ensures IsValidPosition(Some(m), DoorwaySpawn(d, m).x, DoorwaySpawn(d, m).y)
  {
  }
}
