/** The stateful part of the game client (public/game.js): the cinema seat
    table, the players map, the current room and room transitions, the
    video-source flags and the peanut nod counter. Drawing, sound and timers
    are not part of this model. */
module GameClient {
  import opened Common
  import opened World
  import opened GameRooms

  const Cinema := "cinema"
  const PeanutColor := "peanut"
  const DefaultColor := "#4ECDC4"
  const DefaultName := "Player"
  /** `peanutNodMaxFrames`: a nod lasts this many frames. */
  const NodFrames := 50
  /** The reach of the seat key, in pixels. */
  const Reach := 50

  /** A player as the client keeps it; the local player is the entry under
      the local id. A field the source leaves undefined reads as `false`,
      `0` or `None`. */
  datatype Player = Player(
    id: string,
    x: int, y: int, targetX: int, targetY: int,
    color: Option<string>, username: Option<string>,
    room: string, lastUpdate: int,
    direction: Option<string>,
    sitting: bool,
    peanutNodding: bool, peanutNodFrame: int,
    peanutShockMouth: bool, peanutShockEndTime: int,
    peanutMouthOpen: bool, peanutMouthOpenEndTime: int)

  /** The fields of a `playerConnected` / `playerMoved` update; an absent
      field is `None`. */
  datatype PlayerUpdate = PlayerUpdate(
    x: int, y: int, room: string,
    color: Option<string>, username: Option<string>,
    sitting: Option<bool>, peanutNodding: Option<bool>, peanutShockMouth: Option<bool>)

  /** An entry of the roster of `roomChanged`. */
  datatype UserEntry = UserEntry(id: string, username: Option<string>, color: Option<string>)

  datatype Seat = Seat(x: int, y: int, occupied: bool, userId: Option<string>)

  /** Messages the client writes to its socket. */
  datatype Sent = SeatStateMsg(seatIndex: Option<int>) | PeanutAnimationMsg(animation: string)

  /** The eight cinema seats, all free. */
  const InitialSeats := [
    Seat(60, 520, false, None), Seat(130, 520, false, None), Seat(200, 520, false, None), Seat(270, 520, false, None),
    Seat(530, 520, false, None), Seat(600, 520, false, None), Seat(670, 520, false, None), Seat(740, 520, false, None)]

  // ---------------------------------------------------------------------------
  // Seats

  /** `u` sits on `s` as far as the table knows. */
  predicate Holds(s: Seat, u: string) {
    s.occupied && s.userId == Some(u)
  }

  /** One step of the release loop of `handleRemoteSeatState`. */
  function Release(s: Seat, u: string): (r: Seat)
    ensures !Holds(r, u)
    ensures !Holds(s, u) ==> r == s
    ensures Holds(s, u) ==> r == s.(occupied := false, userId := None)
  {
    if s.occupied && s.userId == Some(u) then s.(occupied := false, userId := None) else s
  }

  function ReleaseAll(seats: seq<Seat>, u: string): (r: seq<Seat>)
    ensures |r| == |seats|
    ensures forall i :: 0 <= i < |seats| ==> r[i] == Release(seats[i], u)
  {
    if seats == [] then [] else [Release(seats[0], u)] + ReleaseAll(seats[1..], u)
  }

  /** The seat table after `handleRemoteSeatState(u, index)`. */
  function RemoteSeats(seats: seq<Seat>, u: string, index: Option<int>): seq<Seat> {
    var released := ReleaseAll(seats, u);
    if index.Some? && 0 <= index.value < |seats| then
      released[index.value := released[index.value].(occupied := true, userId := Some(u))]
    else released
  }

  /** After a remote seat update `u` holds exactly the named seat when it
      exists and no seat otherwise; a seat that is neither the named one nor
      held by `u` before is unchanged. */
  lemma RemoteSeatsExclusive(seats: seq<Seat>, u: string, index: Option<int>)
    ensures var t := RemoteSeats(seats, u, index);
      && |t| == |seats|
      && (forall i :: 0 <= i < |t| ==> (Holds(t[i], u) <==> index == Some(i)))
      && (forall i :: 0 <= i < |t| && index != Some(i) && !Holds(seats[i], u) ==> t[i] == seats[i])
      && (forall i :: 0 <= i < |t| && index == Some(i) ==> t[i] == seats[i].(occupied := true, userId := Some(u)))
  {
  }

  /** The distance test of the seat key, `sqrt(dx² + dy²) < 50`, in integers. */
  predicate Near(x: int, y: int, s: Seat) {
    (x - s.x) * (x - s.x) + (y - s.y) * (y - s.y) < Reach * Reach
  }

  /** The seat `handleSeatInteraction` takes: the first free seat in reach. */
  function FreeSeatInReach(seats: seq<Seat>, x: int, y: int): (i: Option<nat>)
    ensures i.Some? ==> i.value < |seats| && Near(x, y, seats[i.value]) && !seats[i.value].occupied
    ensures i.Some? ==> forall j :: 0 <= j < i.value ==> !(Near(x, y, seats[j]) && !seats[j].occupied)
    ensures i.None? ==> forall j :: 0 <= j < |seats| ==> !(Near(x, y, seats[j]) && !seats[j].occupied)
  {
    FindFirst(seats, (s: Seat) => Near(x, y, s) && !s.occupied)
  }

  // ---------------------------------------------------------------------------
  // Players

  /** The record `updatePlayer` creates for an unknown id. */
  function NewPlayer(id: string, d: PlayerUpdate, now: int): (p: Player)
    ensures p.id == id && p.x == p.targetX == d.x && p.y == p.targetY == d.y && p.room == d.room
    ensures p.color == Some(OrElse(d.color, DefaultColor)) && p.username == Some(OrElse(d.username, DefaultName))
    ensures p.sitting == (d.sitting == Some(true)) && !p.peanutNodding && !p.peanutShockMouth
  {
    Player(id, d.x, d.y, d.x, d.y,
           Some(OrElse(d.color, DefaultColor)), Some(OrElse(d.username, DefaultName)),
           d.room, now, None,
           d.sitting == Some(true), false, 0, false, 0, false, 0)
  }

  /** The record `updatePlayer` leaves for a known player: new target, room
      and time; colour and name only when truthy; flags only when present. */
  function UpdatedPlayer(p: Player, d: PlayerUpdate, now: int): (q: Player)
    ensures q.x == p.x && q.y == p.y && q.targetX == d.x && q.targetY == d.y && q.room == d.room && q.lastUpdate == now
    ensures q.color == (if Truthy(d.color) then d.color else p.color)
    ensures q.username == (if Truthy(d.username) then d.username else p.username)
    ensures q.sitting == (if d.sitting.Some? then d.sitting.value else p.sitting)
    ensures q.peanutNodding == (if d.peanutNodding.Some? then d.peanutNodding.value else p.peanutNodding)
    ensures q.peanutShockMouth == (if d.peanutShockMouth.Some? then d.peanutShockMouth.value else p.peanutShockMouth)
    ensures q.id == p.id && q.direction == p.direction && q.peanutNodFrame == p.peanutNodFrame
    ensures q.peanutShockEndTime == p.peanutShockEndTime
    ensures q.peanutMouthOpen == p.peanutMouthOpen && q.peanutMouthOpenEndTime == p.peanutMouthOpenEndTime
  {
    p.(targetX := d.x, targetY := d.y, room := d.room, lastUpdate := now,
       color := if Truthy(d.color) then d.color else p.color,
       username := if Truthy(d.username) then d.username else p.username,
       sitting := if d.sitting.Some? then d.sitting.value else p.sitting,
       peanutNodding := if d.peanutNodding.Some? then d.peanutNodding.value else p.peanutNodding,
       peanutShockMouth := if d.peanutShockMouth.Some? then d.peanutShockMouth.value else p.peanutShockMouth)
  }

  /** The record `initializePlayers` writes for a roster entry. */
  function RosterPlayer(u: UserEntry, room: string, now: int): Player {
    Player(u.id, 400, 300, 400, 300, u.color, u.username, room, now, None, false, false, 0, false, 0, false, 0)
  }

  /** The players map after `initializePlayers(users)`: every roster entry
      but the local player's is written in order. */
  function Initialized(players: map<string, Player>, users: seq<UserEntry>, localId: Option<string>, room: string, now: int): map<string, Player>
  {
    if users == [] then players
    else
      var last := users[|users| - 1];
      var m := Initialized(players, users[..|users| - 1], localId, room, now);
      if localId == Some(last.id) then m else m[last.id := RosterPlayer(last, room, now)]
  }

  /** `initializePlayers` keeps every id the roster does not list and the
      local player, and gives every other listed id a fresh record at
      (400, 300) in the current room, taken from a roster entry with that id;
      existing positions and flags of listed players are discarded. */
  lemma {:induction false} InitializedEntries(players: map<string, Player>, users: seq<UserEntry>, localId: Option<string>, room: string, now: int)
    ensures var m := Initialized(players, users, localId, room, now);
      && (forall id :: id in m <==> id in players || (localId != Some(id) && exists u :: u in users && u.id == id))
      && (forall id :: id in players && (localId == Some(id) || forall u :: u in users ==> u.id != id) ==> m[id] == players[id])
      && (forall id :: id in m && localId != Some(id) && (exists u :: u in users && u.id == id) ==>
            exists u :: u in users && u.id == id && m[id] == RosterPlayer(u, room, now))
  {
    InitializedKeys(players, users, localId, room, now);
    InitializedKeeps(players, users, localId, room, now);
    InitializedFromRoster(players, users, localId, room, now);
  }

  lemma {:induction false} InitializedKeys(players: map<string, Player>, users: seq<UserEntry>, localId: Option<string>, room: string, now: int)
    ensures var m := Initialized(players, users, localId, room, now);
      forall id :: id in m <==> id in players || (localId != Some(id) && exists u :: u in users && u.id == id)
  {
    if users != [] {
      var init := users[..|users| - 1];
      InitializedKeys(players, init, localId, room, now);
      assert forall u :: u in users <==> u in init || u == users[|users| - 1];
    }
  }

  lemma {:induction false} InitializedKeeps(players: map<string, Player>, users: seq<UserEntry>, localId: Option<string>, room: string, now: int)
    ensures var m := Initialized(players, users, localId, room, now);
      forall id :: id in players && (localId == Some(id) || forall u :: u in users ==> u.id != id) ==> id in m && m[id] == players[id]
  {
    if users != [] {
      var init := users[..|users| - 1];
      InitializedKeeps(players, init, localId, room, now);
      assert forall u :: u in init ==> u in users;
    }
  }

  lemma {:induction false} InitializedFromRoster(players: map<string, Player>, users: seq<UserEntry>, localId: Option<string>, room: string, now: int)
    ensures var m := Initialized(players, users, localId, room, now);
      forall id :: id in m && localId != Some(id) && (exists u :: u in users && u.id == id) ==>
        exists u :: u in users && u.id == id && m[id] == RosterPlayer(u, room, now)
  {
    if users != [] {
      var init := users[..|users| - 1];
      var last := users[|users| - 1];
      InitializedFromRoster(players, init, localId, room, now);
      InitializedKeys(players, init, localId, room, now);
      assert forall u :: u in users <==> u in init || u == last;
    }
  }

  // ---------------------------------------------------------------------------
  // The nod counter

  /** One frame of the nod counter: count up while nodding and stop at the
      end of the nod. */
  function NodTick(nodding: bool, frame: int): (bool, int) {
    if !nodding then (nodding, frame)
    else if frame + 1 >= NodFrames then (false, 0)
    else (true, frame + 1)
  }

  function NodTicks(nodding: bool, frame: int, n: nat): (bool, int)
    decreases n
  {
    if n == 0 then (nodding, frame)
    else
      var next := NodTick(nodding, frame);
      NodTicks(next.0, next.1, n - 1)
  }

  /** A nod started at frame `k` is still running, at frame `k + n`, after
      `n` frames as long as that stays below 50. */
  lemma {:induction false} NodRuns(k: nat, n: nat)
    requires k + n < NodFrames
    ensures NodTicks(true, k, n) == (true, k + n)
    decreases n
  {
    if n > 0 {
      NodRuns(k + 1, n - 1);
    }
  }

  /** A nod lasts exactly 50 frames: nodding after 49, stopped with the
      counter back at 0 after 50. */
  lemma NodLasts(n: nat)
    ensures n < NodFrames ==> NodTicks(true, 0, n) == (true, n)
    ensures NodTicks(true, 0, NodFrames) == (false, 0)
  {
    if n < NodFrames {
      NodRuns(0, n);
    }
    NodRuns(0, NodFrames - 1);
    NodTicksSplit(true, 0, NodFrames - 1);
  }

  lemma {:induction false} NodTicksSplit(nodding: bool, frame: int, n: nat)
    ensures NodTicks(nodding, frame, n + 1) == NodTick(NodTicks(nodding, frame, n).0, NodTicks(nodding, frame, n).1)
    decreases n
  {
    if n > 0 {
      var next := NodTick(nodding, frame);
      NodTicksSplit(next.0, next.1, n - 1);
    }
  }

  /** A remote player after one frame of the nod counter. */
  function Nodded(p: Player): (q: Player)
    ensures (q.peanutNodding, q.peanutNodFrame) == NodTick(p.peanutNodding, p.peanutNodFrame)
    ensures q == p.(peanutNodding := q.peanutNodding, peanutNodFrame := q.peanutNodFrame)
  {
    var next := NodTick(p.peanutNodding, p.peanutNodFrame);
    p.(peanutNodding := next.0, peanutNodFrame := next.1)
  }

  /** The players map after one frame: every remote player's counter
      advances; the local entry is left alone (its counter is the game's). */
  function TickedPlayers(players: map<string, Player>, localId: Option<string>): (m: map<string, Player>)
    ensures m.Keys == players.Keys
    ensures forall id :: id in m ==> m[id] == if localId == Some(id) then players[id] else Nodded(players[id])
  {
    map id | id in players :: if localId == Some(id) then players[id] else Nodded(players[id])
  }

  /** The loop of `interpolate` over the players map: every remote nod
      advances by one frame. */
  method TickAll(players: map<string, Player>, me: Option<string>) returns (ticked: map<string, Player>)
    ensures ticked == TickedPlayers(players, me)
  {
    ghost var target := TickedPlayers(players, me);
    ticked := players;
    var pending := ticked.Keys;
    while pending != {}
      invariant pending <= players.Keys && ticked.Keys == players.Keys
      invariant forall id :: id in pending ==> ticked[id] == players[id]
      invariant forall id :: id in ticked && id !in pending ==> ticked[id] == target[id]
      decreases pending
    {
      var id :| id in pending;
      if me != Some(id) {
        ticked := ticked[id := Nodded(ticked[id])];
      }
      pending := pending - {id};
    }
    assert ticked == target;
  }

  /** A peanut player's reaction to an animation event. */
  function PeanutAnimated(p: Player, animationType: Option<string>, now: int): (q: Player)
    ensures animationType == Some("nod") ==> q.peanutNodding && q.peanutNodFrame == 0
    ensures animationType == Some("shock") ==> q.peanutShockMouth && q.peanutShockEndTime == now + 2000
    ensures animationType == Some("mouthOpen") ==> q.peanutMouthOpen && q.peanutMouthOpenEndTime == now + 1000
    ensures animationType !in {Some("nod"), Some("shock"), Some("mouthOpen")} ==> q == p
    ensures q.id == p.id && q.x == p.x && q.y == p.y && q.color == p.color && q.room == p.room
  {
    if animationType == Some("nod") then p.(peanutNodding := true, peanutNodFrame := 0)
    else if animationType == Some("shock") then p.(peanutShockMouth := true, peanutShockEndTime := now + 2000)
    else if animationType == Some("mouthOpen") then p.(peanutMouthOpen := true, peanutMouthOpenEndTime := now + 1000)
    else p
  }

  /** The players map after `handlePeanutAnimation(userId, type)`: only a
      known player dressed as the peanut reacts; an absent id reaches nobody. */
  function PeanutAnimationEffect(players: map<string, Player>, userId: Option<string>, animationType: Option<string>, now: int): (m: map<string, Player>)
    ensures userId.None? || userId.value !in players || players[userId.value].color != Some(PeanutColor) ==> m == players
    ensures userId.Some? && userId.value in players && players[userId.value].color == Some(PeanutColor) ==>
      m == players[userId.value := PeanutAnimated(players[userId.value], animationType, now)]
  {
    if userId.Some? && userId.value in players && players[userId.value].color == Some(PeanutColor) then
      players[userId.value := PeanutAnimated(players[userId.value], animationType, now)]
    else players
  }

  // ---------------------------------------------------------------------------
  // Room transitions

  /** The part of the client state a room transition changes. */
  datatype View = View(currentRoom: Option<RoomConfig>, sittingOnSeat: Option<nat>, transitioning: bool, players: map<string, Player>)

  /** The view after `transitionToRoom(roomId)`: nothing for an unknown room;
      otherwise the target is current, nobody is seated, the transition flag
      is up and the local player stands at the arrival position in the new
      room. */
  function Transitioned(v: View, rooms: seq<RoomConfig>, me: string, roomId: string, m: MapInfo): View
    requires v.currentRoom.Some? && me in v.players
  {
    match FindRoom(rooms, roomId)
    case None => v
    case Some(target) =>
      var pos := Arrival(rooms, v.currentRoom.value, target, m);
      View(Some(target), None, true, v.players[me := v.players[me].(x := pos.x, y := pos.y, room := roomId)])
  }

  /** What a transition promises, stated apart from how it is computed. */
  lemma TransitionedFacts(v: View, rooms: seq<RoomConfig>, me: string, roomId: string, m: MapInfo)
    requires v.currentRoom.Some? && me in v.players
    ensures var t := Transitioned(v, rooms, me, roomId, m);
      && ((forall r :: r in rooms ==> r.roomId != roomId) ==> t == v)
      && ((exists r :: r in rooms && r.roomId == roomId) ==>
            && t.currentRoom.Some? && t.currentRoom.value.roomId == roomId && t.currentRoom.value in rooms
            && t.sittingOnSeat.None? && t.transitioning
            && t.players.Keys == v.players.Keys
            && (forall id :: id in v.players && id != me ==> t.players[id] == v.players[id])
            && t.players[me].room == roomId
            && Pos(t.players[me].x, t.players[me].y) == Arrival(rooms, v.currentRoom.value, t.currentRoom.value, m))
  {
  }

  // ---------------------------------------------------------------------------
  // The client object

  class Game {
    var rooms: seq<RoomConfig>
    var currentRoom: Option<RoomConfig>
    var worldMap: Option<MapInfo>
    var players: map<string, Player>
    var localId: Option<string>
    const seats: array<Seat>
    var sittingOnSeat: Option<nat>
    var transitioning: bool
    var isVideoSource: bool
    var hasReceivedVideoFrame: bool
    var videoPlaying: bool
    var videoTime: int
    var peanutNodding: bool
    var peanutNodFrame: int
    /** Every message written to the socket. */
    var sent: seq<Sent>

    ghost predicate Valid()
      reads this, seats
    {
      && seats.Length == |InitialSeats|
      && (sittingOnSeat.Some? ==> sittingOnSeat.value < seats.Length)
      && 0 <= peanutNodFrame < NodFrames
      && (!peanutNodding ==> peanutNodFrame == 0)
    }

    predicate HasLocal()
      reads this
    {
      localId.Some? && localId.value in players
    }

    function Snapshot(): View
      reads this
    {
      View(currentRoom, sittingOnSeat, transitioning, players)
    }

    constructor ()
      ensures Valid() && fresh(seats)
      ensures seats[..] == InitialSeats
      ensures rooms == [] && currentRoom.None? && worldMap.None? && players == map[] && localId.None?
      ensures sittingOnSeat.None? && !transitioning && !isVideoSource && !hasReceivedVideoFrame
      ensures !peanutNodding && peanutNodFrame == 0 && sent == []
    {
      rooms := [];
      currentRoom := None;
      worldMap := None;
      players := map[];
      localId := None;
      seats := new Seat[|InitialSeats|](i requires 0 <= i < |InitialSeats| => InitialSeats[i]);
      sittingOnSeat := None;
      transitioning := false;
      isVideoSource := false;
      hasReceivedVideoFrame := false;
      videoPlaying := false;
      videoTime := 0;
      peanutNodding := false;
      peanutNodFrame := 0;
      sent := [];
    }

    method SetMap(m: MapInfo)
      modifies this`worldMap
      ensures worldMap == Some(m)
    {
      worldMap := Some(m);
    }

    /** `setRooms`: store the list and make the hub, or else the first room,
        current. With an empty list the current room becomes undefined and
        the final log line's `this.currentRoom.roomId` throws: `threw`. */
    method SetRooms(rs: seq<RoomConfig>) returns (threw: bool)
      modifies this`rooms, this`currentRoom
      ensures threw <==> rs == []
      ensures rooms == rs && currentRoom == InitialRoom(rs)
    {
      rooms := rs;
      currentRoom := InitialRoom(rs);
      threw := currentRoom.None?;
    }

    /** `setCurrentRoom`: switch only to a known room. */
    method SetCurrentRoom(roomId: string)
      modifies this`currentRoom
      ensures FindRoom(rooms, roomId).Some? ==> currentRoom == FindRoom(rooms, roomId)
      ensures FindRoom(rooms, roomId).None? ==> currentRoom == old(currentRoom)
      ensures currentRoom.Some? && currentRoom != old(currentRoom) ==> currentRoom.value.roomId == roomId
    {
      var room := FindRoom(rooms, roomId);
      if room.Some? {
        currentRoom := room;
      }
    }

    /** `setLocalPlayer`: the player enters the map under its id, in the
        current room. */
    method SetLocalPlayer(p: Player)
      requires currentRoom.Some?
      modifies this`players, this`localId
      ensures localId == Some(p.id) && HasLocal()
      ensures players == old(players)[p.id := p.(room := old(currentRoom).value.roomId)]
    {
      localId := Some(p.id);
      players := players[p.id := p.(room := currentRoom.value.roomId)];
    }

    /** `updatePlayer(id, data)`. */
    method UpdatePlayer(id: string, d: PlayerUpdate, now: int)
      modifies this`players
      ensures id in players
      ensures id in old(players) ==> players == old(players)[id := UpdatedPlayer(old(players)[id], d, now)]
      ensures id !in old(players) ==> players == old(players)[id := NewPlayer(id, d, now)]
    {
      if id in players {
        players := players[id := UpdatedPlayer(players[id], d, now)];
      } else {
        players := players[id := NewPlayer(id, d, now)];
      }
    }

    method RemovePlayer(id: string)
      modifies this`players
      ensures players == old(players) - {id}
    {
      players := players - {id};
    }

    /** `initializePlayers(users)`: the loop over the roster of a room. */
    method InitializePlayers(users: seq<UserEntry>, now: int)
      modifies this`players
      ensures players == Initialized(old(players), users, localId, if currentRoom.Some? then currentRoom.value.roomId else Hub, now)
    {
      var room: string := if currentRoom.Some? then currentRoom.value.roomId else Hub;
      var i := 0;
      while i < |users|
        invariant 0 <= i <= |users|
        invariant players == Initialized(old(players), users[..i], localId, room, now)
      {
        var user := users[i];
        assert users[..i + 1][..i] == users[..i];
        if localId != Some(user.id) {
          players := players[user.id := RosterPlayer(user, room, now)];
        }
        i := i + 1;
      }
      assert users[..i] == users;
    }

    // -------------------------------------------------------------------------
    // Seats

    method SendSeatState(index: Option<int>, socketOpen: bool)
      modifies this`sent
      ensures sent == old(sent) + (if socketOpen then [SeatStateMsg(index)] else [])
    {
      if socketOpen {
        sent := sent + [SeatStateMsg(index)];
      }
    }

    /** `handleRemoteSeatState(u, index)`. */
    method HandleRemoteSeatState(u: string, index: Option<int>)
      requires Valid()
      modifies this`players, seats
      ensures Valid()
      ensures seats[..] == RemoteSeats(old(seats[..]), u, index)
      ensures index.Some? && 0 <= index.value < seats.Length && u in old(players) ==>
        var s := seats[index.value];
        players == old(players)[u := old(players)[u].(x := s.x, y := s.y - 10, targetX := s.x, targetY := s.y - 10, sitting := true)]
      ensures !(index.Some? && 0 <= index.value < seats.Length && u in old(players)) ==> players == old(players)
    {
      var i := 0;
      while i < seats.Length
        invariant 0 <= i <= seats.Length
        invariant seats[..i] == ReleaseAll(old(seats[..]), u)[..i]
        invariant seats[i..] == old(seats[..])[i..]
        invariant unchanged(this)
      {
        if seats[i].occupied && seats[i].userId == Some(u) {
          seats[i] := seats[i].(occupied := false, userId := None);
        }
        i := i + 1;
      }
      assert seats[..] == seats[..i];
      ghost var released := seats[..];
      assert released == ReleaseAll(old(seats[..]), u);
      if index.Some? && 0 <= index.value < seats.Length {
        var k := index.value;
        seats[k] := seats[k].(occupied := true, userId := Some(u));
        assert seats[..] == released[k := released[k].(occupied := true, userId := Some(u))];
        if u in players {
          var s := seats[k];
          players := players[u := players[u].(x := s.x, y := s.y - 10, targetX := s.x, targetY := s.y - 10, sitting := true)];
        }
      }
    }

    /** `handleSeatInteraction`: in the cinema, stand up when seated, else
        sit on the first free seat within reach. */
    method HandleSeatInteraction(socketOpen: bool)
      requires Valid()
      requires currentRoom.Some? && currentRoom.value.roomId == Cinema && sittingOnSeat.None? ==> HasLocal()
      modifies this`players, this`sittingOnSeat, this`sent, seats
      ensures Valid()
      ensures old(currentRoom).None? || old(currentRoom).value.roomId != Cinema ==>
        seats[..] == old(seats[..]) && players == old(players) && sittingOnSeat == old(sittingOnSeat) && sent == old(sent)
      ensures old(currentRoom).Some? && old(currentRoom).value.roomId == Cinema && old(sittingOnSeat).Some? ==>
        var k := old(sittingOnSeat).value;
        && seats[..] == old(seats[..])[k := old(seats[k]).(occupied := false)]
        && sittingOnSeat.None? && players == old(players)
        && sent == old(sent) + (if socketOpen then [SeatStateMsg(None)] else [])
      ensures old(currentRoom).Some? && old(currentRoom).value.roomId == Cinema && old(sittingOnSeat).None? ==>
        var me := old(players)[old(localId).value];
        match FreeSeatInReach(old(seats[..]), me.x, me.y)
        case None => seats[..] == old(seats[..]) && players == old(players) && sittingOnSeat.None? && sent == old(sent)
        case Some(k) =>
          && seats[..] == old(seats[..])[k := old(seats[k]).(occupied := true)]
          && sittingOnSeat == Some(k)
          && players == old(players)[old(localId).value := me.(x := old(seats[k]).x, y := old(seats[k]).y - 10, direction := Some("up"))]
          && sent == old(sent) + (if socketOpen then [SeatStateMsg(Some(k))] else [])
    {
      if currentRoom.None? || currentRoom.value.roomId != Cinema {
        return;
      }
      if sittingOnSeat.Some? {
        var k := sittingOnSeat.value;
        seats[k] := seats[k].(occupied := false);
        SendSeatState(None, socketOpen);
        sittingOnSeat := None;
        return;
      }
      var me := localId.value;
      var player := players[me];
      ghost var found := FreeSeatInReach(seats[..], player.x, player.y);
      var i := 0;
      while i < seats.Length
        invariant 0 <= i <= seats.Length
        invariant forall j :: 0 <= j < i ==> !(Near(player.x, player.y, seats[j]) && !seats[j].occupied)
        invariant seats[..] == old(seats[..]) && players == old(players) && sittingOnSeat.None? && sent == old(sent)
      {
        var seat := seats[i];
        if Near(player.x, player.y, seat) && !seat.occupied {
          assert found == Some(i);
          sittingOnSeat := Some(i);
          seats[i] := seat.(occupied := true);
          players := players[me := players[me].(x := seat.x, y := seat.y - 10, direction := Some("up"))];
          SendSeatState(Some(i), socketOpen);
          return;
        }
        i := i + 1;
      }
      assert found.None?;
    }

    // -------------------------------------------------------------------------
    // Room transitions

    /** `transitionToRoom(roomId)`. */
    method TransitionToRoom(roomId: string)
      requires currentRoom.Some? && worldMap.Some? && HasLocal()
      modifies this`currentRoom, this`sittingOnSeat, this`transitioning, this`players
      ensures Snapshot() == Transitioned(old(Snapshot()), old(rooms), old(localId).value, roomId, old(worldMap).value)
    {
      var target := FindRoom(rooms, roomId);
      if target.None? {
        return;
      }
      var previous := currentRoom.value;
      transitioning := true;
      currentRoom := target;
      sittingOnSeat := None;
      var pos := Arrival(rooms, previous, target.value, worldMap.value);
      var me := localId.value;
      players := players[me := players[me].(x := pos.x, y := pos.y, room := roomId)];
    }

    /** `checkRoomTransition`: walk through the first doorway of the current
        room whose zone holds the local player. */
    method CheckRoomTransition()
      requires worldMap.Some? && HasLocal()
      modifies this`currentRoom, this`sittingOnSeat, this`transitioning, this`players
      ensures old(currentRoom).None? ==> Snapshot() == old(Snapshot())
      ensures old(currentRoom).Some? ==>
        var me := old(players)[old(localId).value];
        match FirstDoorway(old(currentRoom).value, Pos(me.x, me.y), old(worldMap).value)
        case None => Snapshot() == old(Snapshot())
        case Some(d) => Snapshot() == Transitioned(old(Snapshot()), old(rooms), old(localId).value, d.targetRoom, old(worldMap).value)
    {
      if currentRoom.None? || currentRoom.value.doorways.None? {
        return;
      }
      var doorways := currentRoom.value.doorways.value;
      var player := players[localId.value];
      var p := Pos(player.x, player.y);
      ghost var found := FirstDoorway(currentRoom.value, p, worldMap.value);
      var i := 0;
      while i < |doorways|
        invariant 0 <= i <= |doorways|
        invariant forall j :: 0 <= j < i ==> !InDoorway(doorways[j], p, worldMap.value)
        invariant Snapshot() == old(Snapshot())
      {
        var d := doorways[i];
        if InDoorway(d, p, worldMap.value) {
          assert found == Some(d);
          TransitionToRoom(d.targetRoom);
          return;
        }
        i := i + 1;
      }
      assert found.None?;
    }

    /** The end of an `update` frame: the local player moves to the new
        position only when it is valid, and only then may walk through a
        doorway. Nothing moves during a transition or while seated. */
    method MoveLocal(newX: int, newY: int)
      requires worldMap.Some?
      modifies this`currentRoom, this`sittingOnSeat, this`transitioning, this`players
      ensures old(!HasLocal() || transitioning || sittingOnSeat.Some? || !IsValidPosition(worldMap, newX, newY)) ==>
        Snapshot() == old(Snapshot())
      ensures old(HasLocal() && !transitioning && sittingOnSeat.None? && IsValidPosition(worldMap, newX, newY)) ==>
        var me := old(localId).value;
        var moved := old(players)[me := old(players)[me].(x := newX, y := newY)];
        var v := View(old(currentRoom), None, false, moved);
        Snapshot() ==
          if old(currentRoom).None? then v
          else match FirstDoorway(old(currentRoom).value, Pos(newX, newY), old(worldMap).value)
            case None => v
            case Some(d) => Transitioned(v, old(rooms), me, d.targetRoom, old(worldMap).value)
    {
      if !HasLocal() || transitioning || sittingOnSeat.Some? {
        return;
      }
      if IsValidPosition(worldMap, newX, newY) {
        var me := localId.value;
        players := players[me := players[me].(x := newX, y := newY)];
        CheckRoomTransition();
      }
    }

    // -------------------------------------------------------------------------
    // Video source flags

    /** `setVideoSource(isSource)`: a change of role forgets any received
        frame. */
    method SetVideoSource(isSource: bool)
      requires Valid()
      modifies this`isVideoSource, this`hasReceivedVideoFrame
      ensures Valid()
      ensures isVideoSource == isSource
      ensures hasReceivedVideoFrame == (if old(isVideoSource) != isSource then false else old(hasReceivedVideoFrame))
    {
      if isVideoSource && !isSource {
        hasReceivedVideoFrame := false;
      }
      if !isVideoSource && isSource {
        hasReceivedVideoFrame := false;
      }
      isVideoSource := isSource;
    }

    method ReceiveVideoFrame()
      requires Valid()
      modifies this`hasReceivedVideoFrame
      ensures Valid()
      ensures hasReceivedVideoFrame
    {
      hasReceivedVideoFrame := true;
    }

    /** `updateVideoState`: the screen follows the event, and this client is
        the source exactly when the event names the local player. */
    method UpdateVideoState(playing: bool, currentTime: Option<int>, sourceId: Option<string>)
      requires Valid()
      modifies this`videoPlaying, this`videoTime, this`isVideoSource, this`hasReceivedVideoFrame
      ensures videoPlaying == playing && videoTime == (if currentTime.Some? then currentTime.value else 0)
      ensures isVideoSource == (sourceId.Some? && localId == sourceId)
      ensures hasReceivedVideoFrame == (if old(isVideoSource) != isVideoSource then false else old(hasReceivedVideoFrame))
      ensures Valid()
    {
      videoPlaying := playing;
      videoTime := if currentTime.Some? then currentTime.value else 0;
      var amISource := sourceId.Some? && localId == sourceId;
      SetVideoSource(amISource);
    }

    // -------------------------------------------------------------------------
    // The peanut animations

    /** `triggerPeanutNod`: a peanut that is not nodding starts a nod and
        tells the room. */
    method TriggerPeanutNod(socketOpen: bool)
      requires Valid()
      modifies this`peanutNodding, this`peanutNodFrame, this`sent
      ensures Valid()
      ensures var start := HasLocal() && players[localId.value].color == Some(PeanutColor) && !old(peanutNodding);
        && (start ==> peanutNodding && peanutNodFrame == 0 && sent == old(sent) + (if socketOpen then [PeanutAnimationMsg("nod")] else []))
        && (!start ==> peanutNodding == old(peanutNodding) && peanutNodFrame == old(peanutNodFrame) && sent == old(sent))
    {
      if HasLocal() && players[localId.value].color == Some(PeanutColor) && !peanutNodding {
        peanutNodding := true;
        peanutNodFrame := 0;
        if socketOpen {
          sent := sent + [PeanutAnimationMsg("nod")];
        }
      }
    }

    /** `handlePeanutAnimation(userId, type)`: only a known peanut player
        reacts. */
    method HandlePeanutAnimation(userId: string, animationType: Option<string>, now: int)
      modifies this`players
      ensures players == PeanutAnimationEffect(old(players), Some(userId), animationType, now)
    {
      if userId in players && players[userId].color == Some(PeanutColor) {
        var p := players[userId];
        if animationType == Some("nod") {
          p := p.(peanutNodding := true, peanutNodFrame := 0);
        } else if animationType == Some("shock") {
          p := p.(peanutShockMouth := true, peanutShockEndTime := now + 2000);
        } else if animationType == Some("mouthOpen") {
          p := p.(peanutMouthOpen := true, peanutMouthOpenEndTime := now + 1000);
        }
        players := players[userId := p];
      }
    }

    /** The nod counters of one `interpolate` frame: every remote player's,
        then the local one. */
    method TickNods()
      requires Valid()
      modifies this`players, this`peanutNodding, this`peanutNodFrame
      ensures Valid()
      ensures (peanutNodding, peanutNodFrame) == NodTick(old(peanutNodding), old(peanutNodFrame))
      ensures players == TickedPlayers(old(players), localId)
    {
      TickRemoteNods();
      if peanutNodding {
        peanutNodFrame := peanutNodFrame + 1;
        if peanutNodFrame >= NodFrames {
          peanutNodding := false;
          peanutNodFrame := 0;
        }
      }
    }

    /** The loop over the remote players of `interpolate`, nod counters only. */
    method TickRemoteNods()
      modifies this`players
      ensures players == TickedPlayers(old(players), localId)
    {
      players := TickAll(players, localId);
    }
  }
}
