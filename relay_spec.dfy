/** The session relay of the server (server/index.js) as a pure state machine.

    One value of `State` holds everything the server keeps in memory: the
    connection registry (`clients`), the rooms with their member sets
    (`rooms`), the per-room chat history, the audio groups, the video sources,
    the set of connections whose socket is in the OPEN state, and every message
    the relay has written to a socket so far (`outbox`). Each inbound event is a
    function from one state to the next; the class in relay_server.dfy runs the
    same events imperatively and is proved to agree with these functions. */
module RelaySpec {
  import opened Common
  import opened World

  type ClientId = string

  const HistoryCapacity := 100
  const MaxChatLength := 500
  const HeartbeatTimeout := 30000
  const DefaultColor := "#4ECDC4"
  const DefaultName := "Player"

  /** An entry of the connection registry. */
  datatype Client = Client(
    username: Option<string>,
    color: Option<string>,
    currentRoom: Option<RoomId>,
    position: Pos,
    lastHeartbeat: int)

  /** A configured room together with its run-time member set. */
  datatype Room = Room(info: RoomConfig, users: set<ClientId>)

  /** A chat line kept in a room's history. */
  datatype ChatMsg = ChatMsg(roomId: RoomId, username: string, text: string, timestamp: int)

  /** What a roster shows of a member. */
  datatype Profile = Profile(username: Option<string>, color: Option<string>)

  /** Events a client sends. Fields the relay passes through untouched are
      opaque strings or integers; a value JavaScript treats as falsy is `None`
      or `false`. `ChatMessage(None)` is a chat event whose text is not a
      string (the handler throws and the dispatcher swallows the error);
      `Malformed` is a frame that is not JSON. */
  datatype InMsg =
    | Join(username: Option<string>, color: Option<string>)
    | PositionUpdate(x: int, y: int, room: Option<RoomId>, timestamp: Option<int>, sitting: bool)
    | VideoState(playing: bool, currentTime: int)
    | VideoFrame(data: string)
    | VideoReset
    | SeatState(seatIndex: Option<int>)
    | ChatMessage(message: Option<string>)
    | AudioSignal(to: string, signal: string)
    | Speaking(isSpeaking: bool)
    | Heartbeat
    | Ping
    | AudioData(samples: seq<int>)
    | PeanutSound
    | PeanutAnimation(animationType: Option<string>)
    | Unknown(kind: string)
    | Malformed

  /** Messages the relay writes to sockets. A system chat line ("X joined the
      room" / "X left the room") is kept structured: `subject` is the user
      name the text is built from. */
  datatype OutMsg =
    | Joined(userId: ClientId, position: Pos, rooms: map<RoomId, RoomConfig>, world: MapInfo)
    | PlayerConnected(userId: ClientId, displayName: string, colorTag: string, position: Pos)
    | PlayerMoved(userId: ClientId, x: int, y: int, room: RoomId, timestamp: Option<int>,
                  username: Option<string>, color: Option<string>, sitting: bool)
    | UserLeft(userId: ClientId, username: Option<string>, roomId: RoomId)
    | UserJoined(userId: ClientId, username: Option<string>, roomId: RoomId, color: Option<string>)
    | SystemChat(roomId: RoomId, subject: Option<string>, joined: bool, time: int)
    | Chat(line: ChatMsg)
    | RoomChanged(roomId: RoomId, roomName: string, users: map<ClientId, Profile>, chatHistory: seq<ChatMsg>)
    | AudioRoomJoin(userId: ClientId, username: Option<string>, users: map<ClientId, Profile>)
    | AudioRoomLeave(userId: ClientId)
    | VideoStateOut(playing: bool, currentTime: int, sourceId: Option<ClientId>)
    | VideoFrameOut(data: string)
    | VideoResetOut
    | SeatStateOut(userId: ClientId, seatIndex: Option<int>)
    | AudioSignalOut(from: ClientId, to: string, signal: string)
    | UserSpeaking(userId: ClientId, isSpeaking: bool)
    | Pong
    | AudioDataOut(from: ClientId, samples: seq<int>)
    | PeanutSoundOut(from: ClientId)
    | PeanutAnimationOut(from: ClientId, animationType: Option<string>)
    | PlayerDisconnected(userId: ClientId)

  /** One message written to each socket in `to` (never empty). */
  datatype Batch = Batch(to: set<ClientId>, msg: OutMsg)

  datatype State = State(
    world: MapInfo,
    clients: map<ClientId, Client>,
    rooms: map<RoomId, Room>,
    history: map<RoomId, seq<ChatMsg>>,
    audio: map<RoomId, set<ClientId>>,
    video: map<RoomId, ClientId>,
    open: set<ClientId>,
    outbox: seq<Batch>)

  // ---------------------------------------------------------------------------
  // Consistency of the maps

  /** The invariants the relay keeps between events. */
  ghost predicate Inv(s: State) {
    && HistoriesBounded(s)
    && MembershipExclusive(s)
    && MembersAgree(s)
    && s.audio == AudioGroups(s.rooms)
    && s.open <= s.clients.Keys
  }

  /** Every configured room, and only those, has a history of at most
      `HistoryCapacity` lines. */
  ghost predicate HistoriesBounded(s: State) {
    && s.history.Keys == s.rooms.Keys
    && (forall r :: r in s.history ==> |s.history[r]| <= HistoryCapacity)
  }

  /** A connection id is in at most one room's member set. */
  ghost predicate MembershipExclusive(s: State) {
    forall r1: RoomId, r2: RoomId, u: ClientId ::
      r1 in s.rooms && r2 in s.rooms && u in s.rooms[r1].users && u in s.rooms[r2].users ==> r1 == r2
  }

  /** A registered member of a room has that room as its current room, and a
      registered client whose current room is configured is a member of it. */
  ghost predicate MembersAgree(s: State) {
    && (forall r: RoomId, u: ClientId :: r in s.rooms && u in s.rooms[r].users && u in s.clients ==>
          s.clients[u].currentRoom == Some(r))
    && (forall u :: u in s.clients && s.clients[u].currentRoom.Some? && s.clients[u].currentRoom.value in s.rooms
          ==> u in s.rooms[s.clients[u].currentRoom.value].users)
  }

  /** The audio groups the member sets determine: one group per room with
      members, holding exactly those members. */
  function AudioGroups(rooms: map<RoomId, Room>): (groups: map<RoomId, set<ClientId>>)
    ensures forall r :: r in groups <==> r in rooms && rooms[r].users != {}
    ensures forall r :: r in groups ==> groups[r] == rooms[r].users
  {
    map r | r in rooms && rooms[r].users != {} :: rooms[r].users
  }

  /** The rooms of the configuration file by id, read in order. */
  function ConfigMap(configRooms: seq<RoomConfig>): map<RoomId, RoomConfig> {
    if configRooms == [] then map[]
    else
      var last := configRooms[|configRooms| - 1];
      ConfigMap(configRooms[..|configRooms| - 1])[last.roomId := last]
  }

  /** Every id the configuration names is a room, and only those. */
  lemma {:induction false} ConfigMapKeys(configRooms: seq<RoomConfig>)
    ensures forall r :: r in ConfigMap(configRooms) <==> exists i :: 0 <= i < |configRooms| && configRooms[i].roomId == r
  {
    if configRooms != [] {
      var n := |configRooms| - 1;
      var init := configRooms[..n];
      ConfigMapKeys(init);
      var m := ConfigMap(configRooms);
      assert m == ConfigMap(init)[configRooms[n].roomId := configRooms[n]];
      forall r | r in m ensures exists i :: 0 <= i < |configRooms| && configRooms[i].roomId == r {
        if r != configRooms[n].roomId {
          var i :| 0 <= i < |init| && init[i].roomId == r;
          assert configRooms[i].roomId == r;
        }
      }
      forall r | exists i :: 0 <= i < |configRooms| && configRooms[i].roomId == r ensures r in m {
        var i :| 0 <= i < |configRooms| && configRooms[i].roomId == r;
        if i < n { assert init[i].roomId == r; }
      }
    }
  }

  /** A room is configured by the last entry carrying its id. */
  lemma {:induction false} ConfigMapLast(configRooms: seq<RoomConfig>, i: int)
    requires 0 <= i < |configRooms|
    requires forall j :: i < j < |configRooms| ==> configRooms[j].roomId != configRooms[i].roomId
    ensures configRooms[i].roomId in ConfigMap(configRooms)
    ensures ConfigMap(configRooms)[configRooms[i].roomId] == configRooms[i]
  {
    var n := |configRooms| - 1;
    var init := configRooms[..n];
    assert ConfigMap(configRooms) == ConfigMap(init)[configRooms[n].roomId := configRooms[n]];
    if i < n {
      assert init[i] == configRooms[i];
      forall j | i < j < |init| ensures init[j].roomId != init[i].roomId {
        assert init[j] == configRooms[j];
      }
      ConfigMapLast(init, i);
    }
  }

  /** The server's state right after loading the configuration. */
  function Init(config: map<RoomId, RoomConfig>, world: MapInfo): (s: State)
    ensures Inv(s)
    ensures s.clients == map[] && s.outbox == []
    ensures forall r :: r in config <==> r in s.rooms && s.rooms[r].users == {} && s.history[r] == []
  {
    State(world, map[],
          map r | r in config :: Room(config[r], {}),
          map r | r in config :: [],
          map[], map[], {}, [])
  }

  /** A connection id the id generator has never produced before. */
  ghost predicate Fresh(s: State, id: ClientId) {
    && id !in s.clients && id !in s.open
    && (forall r :: r in s.rooms ==> id !in s.rooms[r].users)
    && (forall r :: r in s.audio ==> id !in s.audio[r])
    && (forall r :: r in s.video ==> s.video[r] != id)
  }

  // ---------------------------------------------------------------------------
  // Fan-out

  /** `broadcastToRoom`: the room's members that have a registry entry and an
      open socket, except the excluded one; nobody for an unknown room. */
  function RoomRecipients(s: State, r: RoomId, exclude: Option<ClientId>): (to: set<ClientId>)
    ensures forall u :: u in to <==>
      r in s.rooms && u in s.rooms[r].users && u in s.clients && u in s.open && exclude != Some(u)
  {
    if r in s.rooms then
      set u | u in s.rooms[r].users && u in s.clients && u in s.open && exclude != Some(u)
    else {}
  }

  /** `broadcastToAll`: every registered connection with an open socket except
      the excluded one. */
  function AllRecipients(s: State, exclude: Option<ClientId>): (to: set<ClientId>)
    ensures forall u :: u in to <==> u in s.clients && u in s.open && exclude != Some(u)
  {
    set u | u in s.clients && u in s.open && exclude != Some(u)
  }

  /** `audioData` fan-out: the sender's room audio group minus the sender,
      restricted to open sockets. */
  function AudioRecipients(s: State, r: RoomId, sender: ClientId): (to: set<ClientId>)
    ensures forall u :: u in to <==> r in s.audio && u in s.audio[r] && u != sender && u in s.open
  {
    if r in s.audio then set u | u in s.audio[r] && u != sender && u in s.open else {}
  }

  /** Writes `msg` to every socket in `to`; writing to nobody leaves no trace. */
  function Emit(s: State, to: set<ClientId>, msg: OutMsg): (t: State)
    ensures t == s.(outbox := t.outbox) && Extends(s.outbox, t.outbox)
  {
    if to == {} then s else s.(outbox := s.outbox + [Batch(to, msg)])
  }

  function ToRoom(s: State, r: RoomId, msg: OutMsg, exclude: Option<ClientId>): (t: State)
    ensures t == s.(outbox := t.outbox) && Extends(s.outbox, t.outbox)
  {
    Emit(s, RoomRecipients(s, r, exclude), msg)
  }

  function ToAll(s: State, msg: OutMsg, exclude: Option<ClientId>): (t: State)
    ensures t == s.(outbox := t.outbox) && Extends(s.outbox, t.outbox)
  {
    Emit(s, AllRecipients(s, exclude), msg)
  }

  /** `later` is `earlier` with messages appended. */
  predicate Extends(earlier: seq<Batch>, later: seq<Batch>) {
    |earlier| <= |later| && later[..|earlier|] == earlier
  }

  /** Same registry, sockets, histories, video sources and room configuration;
      member sets, audio groups and the outbox may differ. */
  predicate SameButMembership(s: State, t: State) {
    && t.world == s.world && t.clients == s.clients && t.open == s.open
    && t.history == s.history && t.video == s.video
    && t.rooms.Keys == s.rooms.Keys
    && (forall r :: r in s.rooms ==> t.rooms[r].info == s.rooms[r].info)
    && Extends(s.outbox, t.outbox)
  }

  /** The roster of a room: id, name and colour of each member that is still
      registered. */
  function Roster(s: State, r: RoomId): (roster: map<ClientId, Profile>)
    requires r in s.rooms
    ensures roster.Keys == s.rooms[r].users * s.clients.Keys
  {
    map u | u in s.rooms[r].users && u in s.clients :: Profile(s.clients[u].username, s.clients[u].color)
  }

  function HistoryOf(s: State, r: RoomId): seq<ChatMsg> {
    if r in s.history then s.history[r] else []
  }

  function RoomConfigs(s: State): map<RoomId, RoomConfig> {
    map r | r in s.rooms :: s.rooms[r].info
  }

  // ---------------------------------------------------------------------------
  // Small map updates

  /** The rooms with `id` taken out of the member set of `r` (if configured). */
  function RemoveMember(rooms: map<RoomId, Room>, r: RoomId, id: ClientId): (t: map<RoomId, Room>)
    ensures t.Keys == rooms.Keys
    ensures forall q :: q in rooms ==> t[q].info == rooms[q].info
    ensures forall q :: q in rooms ==> t[q].users == if q == r then rooms[q].users - {id} else rooms[q].users
  {
    if r in rooms then rooms[r := rooms[r].(users := rooms[r].users - {id})] else rooms
  }

  /** The rooms with `id` added to the member set of `r` (if configured). */
  function AddMember(rooms: map<RoomId, Room>, r: RoomId, id: ClientId): (t: map<RoomId, Room>)
    ensures t.Keys == rooms.Keys
    ensures forall q :: q in rooms ==> t[q].info == rooms[q].info
    ensures forall q :: q in rooms ==> t[q].users == if q == r then rooms[q].users + {id} else rooms[q].users
  {
    if r in rooms then rooms[r := rooms[r].(users := rooms[r].users + {id})] else rooms
  }

  /** Removes `id` from the audio group of `r`, deleting the group once empty. */
  function LeaveAudio(audio: map<RoomId, set<ClientId>>, r: RoomId, id: ClientId): (a: map<RoomId, set<ClientId>>)
    ensures a.Keys <= audio.Keys
    ensures r in a ==> r in audio && a[r] == audio[r] - {id} && a[r] != {}
    ensures r in audio && audio[r] - {id} != {} ==> r in a
    ensures forall q :: q != r && q in audio ==> q in a && a[q] == audio[q]
  {
    if r in audio then
      var group := audio[r] - {id};
      if group == {} then audio - {r} else audio[r := group]
    else audio
  }

  /** Adds `id` to the audio group of `r`, creating the group if needed. */
  function JoinAudio(audio: map<RoomId, set<ClientId>>, r: RoomId, id: ClientId): (a: map<RoomId, set<ClientId>>)
    ensures a.Keys == audio.Keys + {r}
    ensures a[r] == (if r in audio then audio[r] else {}) + {id}
    ensures forall q :: q != r && q in audio ==> a[q] == audio[q]
  {
    audio[r := (if r in audio then audio[r] else {}) + {id}]
  }

  /** Appends a line to a history and, once it holds more than
      `HistoryCapacity` lines, drops the oldest one. */
  function AppendBounded(h: seq<ChatMsg>, m: ChatMsg): (r: seq<ChatMsg>)
    ensures |h| <= HistoryCapacity ==> |r| <= HistoryCapacity
    ensures |r| > 0 && r[|r| - 1] == m
    ensures |h| < HistoryCapacity ==> r == h + [m]
    ensures |h| == HistoryCapacity ==> r == h[1..] + [m]
  {
    var g := h + [m];
    if |g| > HistoryCapacity then g[1..] else g
  }

  function Truncate(text: string, n: nat): (t: string)
    ensures |t| == if |text| <= n then |text| else n
    ensures t == text[..|t|]
  {
    if |text| <= n then text else text[..n]
  }

  // ---------------------------------------------------------------------------
  // The room-transition protocol (handleRoomChange)

  /** Leaving room `r` (a configured room or not). */
  function LeaveRoom(s: State, id: ClientId, r: RoomId, now: int): (t: State)
    requires id in s.clients
    ensures SameButMembership(s, t) && t.rooms == RemoveMember(s.rooms, r, id)
  {
    if r !in s.rooms then s
    else
      var c := s.clients[id];
      var s1 := s.(rooms := RemoveMember(s.rooms, r, id));
      var s2 := ToRoom(s1, r, UserLeft(id, c.username, r), None);
      var s3 := ToRoom(s2, r, SystemChat(r, c.username, false, now), None);
      var s4 := ToRoom(s3, r, AudioRoomLeave(id), None);
      s4.(audio := LeaveAudio(s4.audio, r, id))
  }

  /** The first part of entering configured room `r`: membership, the
      announcements to the room, then the welcome batch to the mover alone,
      carrying the room's name, roster and whole chat history. */
  function Welcome(s: State, id: ClientId, r: RoomId, now: int): (t: State)
    requires id in s.clients && r in s.rooms
    ensures t.rooms == AddMember(s.rooms, r, id) && t.audio == s.audio
    ensures SameButMembership(s, t) && |s.outbox| < |t.outbox|
    ensures var b := t.outbox[|t.outbox| - 1];
      && b.to == {id} && b.msg.RoomChanged? && b.msg.roomId == r
      && b.msg.roomName == s.rooms[r].info.name && b.msg.chatHistory == HistoryOf(s, r)
      && b.msg.users == Roster(s.(rooms := AddMember(s.rooms, r, id)), r)
  {
    var c := s.clients[id];
    var s1 := s.(rooms := AddMember(s.rooms, r, id));
    var s2 := ToRoom(s1, r, UserJoined(id, c.username, r, c.color), None);
    var s3 := ToRoom(s2, r, SystemChat(r, c.username, true, now), None);
    ExtendsTrans(s.outbox, s2.outbox, s3.outbox);
    Emit(s3, {id}, RoomChanged(r, s3.rooms[r].info.name, Roster(s3, r), HistoryOf(s3, r)))
  }

  /** Entering room `r` (a configured room or not). */
  function EnterRoom(s: State, id: ClientId, r: RoomId, now: int): (t: State)
    requires id in s.clients
    ensures SameButMembership(s, t)
  {
    if r !in s.rooms then s
    else
      var c := s.clients[id];
      var s4 := Welcome(s, id, r, now);
      var s5 := s4.(audio := JoinAudio(s4.audio, r, id));
      var t := ToRoom(s5, r, AudioRoomJoin(id, c.username, Roster(s5, r)), None);
      ExtendsTrans(s.outbox, s4.outbox, t.outbox);
      t
  }

  /** `handleRoomChange(client, newRoomId)`. */
  function RoomChange(s: State, id: ClientId, newRoom: RoomId, now: int): (t: State)
    requires id in s.clients
    ensures t.clients == s.clients[id := s.clients[id].(currentRoom := Some(newRoom))]
    ensures t.open == s.open && t.world == s.world && t.history == s.history && t.video == s.video
    ensures t.rooms.Keys == s.rooms.Keys && forall r :: r in s.rooms ==> t.rooms[r].info == s.rooms[r].info
    ensures Extends(s.outbox, t.outbox)
  {
    var c := s.clients[id];
    if c.currentRoom == Some(newRoom) then
      assert s.clients[id := c] == s.clients;
      s
    else
      var s1 := if c.currentRoom.Some? then LeaveRoom(s, id, c.currentRoom.value, now) else s;
      var s2 := s1.(clients := s1.clients[id := c.(currentRoom := Some(newRoom))]);
      var t := EnterRoom(s2, id, newRoom, now);
      MovedFrame(s, s1, s2, t, id, c.(currentRoom := Some(newRoom)));
      t
  }

  /** A leave, a change of one registry entry and an entry change nothing
      but that entry, member sets, audio groups and the outbox. */
  lemma MovedFrame(s: State, s1: State, s2: State, t: State, id: ClientId, c: Client)
    requires SameButMembership(s, s1) && SameButMembership(s2, t)
    requires s2 == s1.(clients := s1.clients[id := c])
    ensures t.clients == s.clients[id := c]
    ensures t.open == s.open && t.world == s.world && t.history == s.history && t.video == s.video
    ensures t.rooms.Keys == s.rooms.Keys && forall r :: r in s.rooms ==> t.rooms[r].info == s.rooms[r].info
    ensures Extends(s.outbox, t.outbox)
  {
    ExtendsTrans(s.outbox, s1.outbox, t.outbox);
  }

  lemma ExtendsTrans(a: seq<Batch>, b: seq<Batch>, c: seq<Batch>)
    requires Extends(a, b) && Extends(b, c)
    ensures Extends(a, c)
  {
    assert c[..|a|] == c[..|b|][..|a|];
  }

  // ---------------------------------------------------------------------------
  // Connection lifecycle and the dispatcher

  /** A socket is accepted: a registry entry with no name, colour or room. */
  function Connect(s: State, id: ClientId, now: int): State {
    s.(clients := s.clients[id := Client(None, None, None, Pos(0, 0), now)],
       open := s.open + {id})
  }

  /** The transport moves a socket out of the OPEN state (closing handshake). */
  function SocketNotOpen(s: State, id: ClientId): State {
    s.(open := s.open - {id})
  }

  /** The position the server assigns on `join`. */
  function JoinPosition(s: State): Pos {
    if Hub in s.rooms then s.rooms[Hub].info.spawnPoint else Pos(400, 300)
  }

  function OnJoin(s: State, id: ClientId, username: Option<string>, color: Option<string>): State
    requires id in s.clients
  {
    var pos := JoinPosition(s);
    var s1 := s.(clients := s.clients[id := s.clients[id].(username := username, color := color, position := pos)]);
    var s2 := Emit(s1, {id}, Joined(id, pos, RoomConfigs(s1), s1.world));
    ToAll(s2, PlayerConnected(id, OrElse(username, DefaultName), OrElse(color, DefaultColor), pos), Some(id))
  }

  /** The room a position update names, `message.room || 'hub'`. */
  function TargetRoom(room: Option<RoomId>): RoomId {
    if room.Some? then room.value else Hub
  }

  function OnPositionUpdate(s: State, id: ClientId, x: int, y: int, room: Option<RoomId>,
                            timestamp: Option<int>, sitting: bool, now: int): State
    requires id in s.clients
  {
    var s1 := s.(clients := s.clients[id := s.clients[id].(position := Pos(x, y))]);
    var target := TargetRoom(room);
    var s2 := RoomChange(s1, id, target, now);
    var c := s2.clients[id];
    ToAll(s2, PlayerMoved(id, x, y, target, timestamp, c.username, c.color, sitting), Some(id))
  }

  /** The video-source record after a `videoState` event from `id` in room `r`. */
  function NextVideo(video: map<RoomId, ClientId>, r: RoomId, id: ClientId, playing: bool): map<RoomId, ClientId> {
    if playing then video[r := id]
    else if r in video && video[r] == id then video - {r}
    else video
  }

  function OnVideoState(s: State, id: ClientId, playing: bool, currentTime: int): (t: State)
    requires id in s.clients
    ensures t == s.(video := t.video, outbox := t.outbox)
  {
    match s.clients[id].currentRoom
    case None => s
    case Some(r) =>
      ToRoom(s.(video := NextVideo(s.video, r, id, playing)), r, VideoStateOut(playing, currentTime, Some(id)), None)
  }

  function OnChat(s: State, id: ClientId, message: Option<string>, now: int): State
    requires id in s.clients
  {
    var c := s.clients[id];
    if c.currentRoom.None? || !Truthy(c.username) || message.None? then s
    else
      var r := c.currentRoom.value;
      var line := ChatMsg(r, c.username.value, Truncate(message.value, MaxChatLength), now);
      var s1 := if r in s.history then s.(history := s.history[r := AppendBounded(s.history[r], line)]) else s;
      ToRoom(s1, r, Chat(line), None)
  }

  /** Relays `msg` to the sender's current room, excluding or including the
      sender; nothing without a current room. */
  function ToOwnRoom(s: State, id: ClientId, msg: OutMsg, includeSender: bool): (t: State)
    requires id in s.clients
    ensures t == s.(outbox := t.outbox) && Extends(s.outbox, t.outbox)
  {
    match s.clients[id].currentRoom
    case None => s
    case Some(r) => ToRoom(s, r, msg, if includeSender then None else Some(id))
  }

  function Touch(s: State, id: ClientId, now: int): State
    requires id in s.clients
  {
    s.(clients := s.clients[id := s.clients[id].(lastHeartbeat := now)])
  }

  function OnAudioData(s: State, id: ClientId, data: seq<int>): (t: State)
    requires id in s.clients
    ensures t == s.(outbox := t.outbox) && Extends(s.outbox, t.outbox)
  {
    match s.clients[id].currentRoom
    case None => s
    case Some(r) => if r in s.audio then Emit(s, AudioRecipients(s, r, id), AudioDataOut(id, data)) else s
  }

  /** The events the server passes on to the sender's room unchanged in
      kind, and the ones it ignores. */
  predicate IsRelayOnly(m: InMsg) {
    || m.VideoFrame? || m.VideoReset? || m.SeatState? || m.AudioSignal? || m.Speaking?
    || m.PeanutSound? || m.PeanutAnimation? || m.Unknown? || m.Malformed?
  }

  /** The message handler of a connection: one inbound event. */
  function Receive(s: State, id: ClientId, m: InMsg, now: int): State {
    if id !in s.clients then s
    else match m
      case Join(username, color) => OnJoin(s, id, username, color)
      case PositionUpdate(x, y, room, timestamp, sitting) => OnPositionUpdate(s, id, x, y, room, timestamp, sitting, now)
      case VideoState(playing, currentTime) => OnVideoState(s, id, playing, currentTime)
      case VideoFrame(data) =>
        if s.clients[id].currentRoom.Some? && s.clients[id].currentRoom.value in s.rooms
        then ToOwnRoom(s, id, VideoFrameOut(data), false) else s
      case VideoReset => ToOwnRoom(s, id, VideoResetOut, false)
      case SeatState(seatIndex) => ToOwnRoom(s, id, SeatStateOut(id, seatIndex), false)
      case ChatMessage(message) => OnChat(s, id, message, now)
      case AudioSignal(to, signal) => ToOwnRoom(s, id, AudioSignalOut(id, to, signal), false)
      case Speaking(isSpeaking) => ToOwnRoom(s, id, UserSpeaking(id, isSpeaking), true)
      case Heartbeat => Touch(s, id, now)
      case Ping => Emit(Touch(s, id, now), {id}, Pong)
      case AudioData(data) => OnAudioData(s, id, data)
      case PeanutSound => ToOwnRoom(s, id, PeanutSoundOut(id), false)
      case PeanutAnimation(animationType) => ToOwnRoom(s, id, PeanutAnimationOut(id, animationType), false)
      case Unknown(_) => s
      case Malformed => s
  }

  /** Cleanup of the room a closing connection was in. */
  function CloseRoom(s: State, id: ClientId, r: RoomId): (t: State)
    requires id in s.clients
    ensures t.world == s.world && t.clients == s.clients && t.open == s.open && t.history == s.history
    ensures t.rooms.Keys == s.rooms.Keys && forall q :: q in s.rooms ==> t.rooms[q].info == s.rooms[q].info
    ensures Extends(s.outbox, t.outbox)
  {
    if r !in s.rooms then s
    else
      var c := s.clients[id];
      var s1 := s.(rooms := RemoveMember(s.rooms, r, id));
      var s2 := if r in s1.video && s1.video[r] == id
                then ToRoom(s1.(video := s1.video - {r}), r, VideoStateOut(false, 0, None), None)
                else s1;
      var s3 := ToRoom(s2, r, UserLeft(id, c.username, r), None);
      var s4 := ToRoom(s3, r, SeatStateOut(id, None), None);
      var s5 := ToRoom(s4, r, AudioRoomLeave(id), None);
      s5.(audio := LeaveAudio(s5.audio, r, id))
  }

  /** The close handler of a connection. The socket is already closed when it
      runs, so the connection itself is no longer a recipient. */
  function Close(s: State, id: ClientId): State {
    var s0 := s.(open := s.open - {id});
    if id !in s0.clients then s0
    else
      var c := s0.clients[id];
      var s1 := if c.currentRoom.Some? then CloseRoom(s0, id, c.currentRoom.value) else s0;
      var s2 := ToAll(s1, PlayerDisconnected(id), None);
      s2.(clients := s2.clients - {id})
  }

  predicate Stale(c: Client, now: int) {
    now - c.lastHeartbeat > HeartbeatTimeout
  }

  function Evicted(s: State, now: int): set<ClientId> {
    set u | u in s.clients && Stale(s.clients[u], now)
  }

  /** The heartbeat sweep as written: terminate the socket and delete the
      registry entry of every stale connection, and nothing else. */
  function Sweep(s: State, now: int): State {
    s.(clients := map u | u in s.clients && !Stale(s.clients[u], now) :: s.clients[u],
       open := s.open - Evicted(s, now))
  }
}
