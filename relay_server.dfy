/** The relay server of server/index.js as an object whose handlers update
    its maps in place. Each handler is proved to take the state to exactly
    the state the matching function of relay_spec.dfy computes, and the
    handlers that run between events keep the invariants of the maps. */
module RelayServer {
  import opened Common
  import opened World
  import opened RelaySpec
  import RelayProps

  /** The loop over the configured rooms at start-up. */
  method LoadRooms(configRooms: seq<RoomConfig>) returns (rs: map<RoomId, Room>, hs: map<RoomId, seq<ChatMsg>>)
    ensures rs == map r | r in ConfigMap(configRooms) :: Room(ConfigMap(configRooms)[r], {})
    ensures hs == map r | r in ConfigMap(configRooms) :: []
  {
    rs := map[];
    hs := map[];
    var i := 0;
    while i < |configRooms|
      invariant 0 <= i <= |configRooms|
      invariant rs == map r | r in ConfigMap(configRooms[..i]) :: Room(ConfigMap(configRooms[..i])[r], {})
      invariant hs == map r | r in ConfigMap(configRooms[..i]) :: []
    {
      var room := configRooms[i];
      assert configRooms[..i + 1][..i] == configRooms[..i];
      rs := rs[room.roomId := Room(room, {})];
      hs := hs[room.roomId := []];
      i := i + 1;
    }
    assert configRooms[..i] == configRooms;
  }

  class Relay {
    var world: MapInfo
    var clients: map<ClientId, Client>
    var rooms: map<RoomId, Room>
    var history: map<RoomId, seq<ChatMsg>>
    var audio: map<RoomId, set<ClientId>>
    var video: map<RoomId, ClientId>
    /** Connections whose socket is in the OPEN state. */
    var open: set<ClientId>
    /** Every message written to a socket so far. */
    var outbox: seq<Batch>

    /** The state this object holds. */
    function Abs(): State
      reads this
    {
      State(world, clients, rooms, history, audio, video, open, outbox)
    }

    ghost predicate Valid()
      reads this
    {
      Inv(Abs())
    }

    /** Start-up: one room with an empty member set and an empty chat
        history per entry of the configuration. */
    constructor (configRooms: seq<RoomConfig>, mapInfo: MapInfo)
      ensures Abs() == Init(ConfigMap(configRooms), mapInfo)
      ensures Valid()
    {
      var rs, hs := LoadRooms(configRooms);
      world := mapInfo;
      clients := map[];
      rooms := rs;
      history := hs;
      audio := map[];
      video := map[];
      open := {};
      outbox := [];
    }

    // -------------------------------------------------------------------------
    // Fan-out

    /** The loop of `broadcastToRoom`. */
    method RoomRecipientSet(r: RoomId, exclude: Option<ClientId>) returns (to: set<ClientId>)
      ensures to == RoomRecipients(Abs(), r, exclude)
    {
      to := {};
      if r !in rooms {
        return;
      }
      var pending := rooms[r].users;
      while pending != {}
        invariant pending <= rooms[r].users
        invariant forall u :: u in to <==>
          u in rooms[r].users && u !in pending && u in clients && u in open && exclude != Some(u)
        decreases pending
      {
        var u :| u in pending;
        if u in clients && u in open && exclude != Some(u) {
          to := to + {u};
        }
        pending := pending - {u};
      }
    }

    /** The loop of `broadcastToAll`. */
    method AllRecipientSet(exclude: Option<ClientId>) returns (to: set<ClientId>)
      ensures to == AllRecipients(Abs(), exclude)
    {
      to := {};
      var pending := clients.Keys;
      while pending != {}
        invariant pending <= clients.Keys
        invariant forall u :: u in to <==> u in clients && u !in pending && u in open && exclude != Some(u)
        decreases pending
      {
        var u :| u in pending;
        if u in open && exclude != Some(u) {
          to := to + {u};
        }
        pending := pending - {u};
      }
    }

    /** The loop of the `audioData` case over the sender's audio group. */
    method AudioRecipientSet(r: RoomId, sender: ClientId) returns (to: set<ClientId>)
      ensures to == AudioRecipients(Abs(), r, sender)
    {
      to := {};
      if r !in audio {
        return;
      }
      var pending := audio[r];
      while pending != {}
        invariant pending <= audio[r]
        invariant forall u :: u in to <==> u in audio[r] && u !in pending && u != sender && u in open
        decreases pending
      {
        var u :| u in pending;
        if u != sender && u in open {
          to := to + {u};
        }
        pending := pending - {u};
      }
    }

    method Send(to: set<ClientId>, msg: OutMsg)
      modifies this
      ensures Abs() == Emit(old(Abs()), to, msg)
    {
      if to != {} {
        outbox := outbox + [Batch(to, msg)];
      }
    }

    method BroadcastToRoom(r: RoomId, msg: OutMsg, exclude: Option<ClientId>)
      modifies this
      ensures Abs() == ToRoom(old(Abs()), r, msg, exclude)
    {
      var to := RoomRecipientSet(r, exclude);
      Send(to, msg);
    }

    method BroadcastToAll(msg: OutMsg, exclude: Option<ClientId>)
      modifies this
      ensures Abs() == ToAll(old(Abs()), msg, exclude)
    {
      var to := AllRecipientSet(exclude);
      Send(to, msg);
    }

    // -------------------------------------------------------------------------
    // handleRoomChange

    method LeaveOldRoom(id: ClientId, r: RoomId, now: int)
      requires id in clients
      modifies this
      ensures Abs() == LeaveRoom(old(Abs()), id, r, now)
    {
      if r !in rooms {
        return;
      }
      var c := clients[id];
      rooms := RemoveMember(rooms, r, id);
      BroadcastToRoom(r, UserLeft(id, c.username, r), None);
      BroadcastToRoom(r, SystemChat(r, c.username, false, now), None);
      BroadcastToRoom(r, AudioRoomLeave(id), None);
      audio := LeaveAudio(audio, r, id);
    }

    method EnterNewRoom(id: ClientId, r: RoomId, now: int)
      requires id in clients
      modifies this
      ensures Abs() == EnterRoom(old(Abs()), id, r, now)
    {
      if r !in rooms {
        return;
      }
      var c := clients[id];
      rooms := AddMember(rooms, r, id);
      BroadcastToRoom(r, UserJoined(id, c.username, r, c.color), None);
      BroadcastToRoom(r, SystemChat(r, c.username, true, now), None);
      Send({id}, RoomChanged(r, rooms[r].info.name, Roster(Abs(), r), HistoryOf(Abs(), r)));
      audio := JoinAudio(audio, r, id);
      BroadcastToRoom(r, AudioRoomJoin(id, c.username, Roster(Abs(), r)), None);
    }

    method HandleRoomChange(id: ClientId, newRoom: RoomId, now: int)
      requires id in clients
      modifies this
      ensures Abs() == RoomChange(old(Abs()), id, newRoom, now)
    {
      var c := clients[id];
      if c.currentRoom == Some(newRoom) {
        return;
      }
      if c.currentRoom.Some? {
        LeaveOldRoom(id, c.currentRoom.value, now);
      }
      clients := clients[id := c.(currentRoom := Some(newRoom))];
      EnterNewRoom(id, newRoom, now);
    }

    // -------------------------------------------------------------------------
    // Connection lifecycle

    /** A socket is accepted under a new id. */
    method OnConnect(id: ClientId, now: int)
      requires Valid() && Fresh(Abs(), id)
      modifies this
      ensures Abs() == Connect(old(Abs()), id, now)
      ensures Valid()
    {
      RelayProps.ConnectPreservesInv(Abs(), id, now);
      clients := clients[id := Client(None, None, None, Pos(0, 0), now)];
      open := open + {id};
    }

    /** The transport takes a socket out of the OPEN state. */
    method OnSocketClosing(id: ClientId)
      requires Valid()
      modifies this
      ensures Abs() == SocketNotOpen(old(Abs()), id)
      ensures Valid()
    {
      open := open - {id};
    }

    method OnJoinMessage(id: ClientId, username: Option<string>, color: Option<string>)
      requires id in clients
      modifies this
      ensures Abs() == OnJoin(old(Abs()), id, username, color)
    {
      var pos := if Hub in rooms then rooms[Hub].info.spawnPoint else Pos(400, 300);
      clients := clients[id := clients[id].(username := username, color := color, position := pos)];
      Send({id}, Joined(id, pos, RoomConfigs(Abs()), world));
      BroadcastToAll(PlayerConnected(id, OrElse(username, DefaultName), OrElse(color, DefaultColor), pos), Some(id));
    }

    method OnPositionMessage(id: ClientId, x: int, y: int, room: Option<RoomId>,
                             timestamp: Option<int>, sitting: bool, now: int)
      requires id in clients
      modifies this
      ensures Abs() == OnPositionUpdate(old(Abs()), id, x, y, room, timestamp, sitting, now)
    {
      clients := clients[id := clients[id].(position := Pos(x, y))];
      var target := if room.Some? then room.value else Hub;
      HandleRoomChange(id, target, now);
      var c := clients[id];
      BroadcastToAll(PlayerMoved(id, x, y, target, timestamp, c.username, c.color, sitting), Some(id));
    }

    method OnVideoMessage(id: ClientId, playing: bool, currentTime: int)
      requires id in clients
      modifies this
      ensures Abs() == OnVideoState(old(Abs()), id, playing, currentTime)
    {
      var room := clients[id].currentRoom;
      if room.Some? {
        var r := room.value;
        if playing {
          video := video[r := id];
        } else if r in video && video[r] == id {
          video := video - {r};
        }
        BroadcastToRoom(r, VideoStateOut(playing, currentTime, Some(id)), None);
      }
    }

    method OnChatMessage(id: ClientId, message: Option<string>, now: int)
      requires id in clients
      modifies this
      ensures Abs() == OnChat(old(Abs()), id, message, now)
    {
      var c := clients[id];
      if c.currentRoom.None? || !Truthy(c.username) || message.None? {
        return;
      }
      var r := c.currentRoom.value;
      var line := ChatMsg(r, c.username.value, Truncate(message.value, MaxChatLength), now);
      if r in history {
        history := history[r := AppendBounded(history[r], line)];
      }
      BroadcastToRoom(r, Chat(line), None);
    }

    /** Relays `msg` to the sender's room when it has one. */
    method RelayToOwnRoom(id: ClientId, msg: OutMsg, includeSender: bool)
      requires id in clients
      modifies this
      ensures Abs() == ToOwnRoom(old(Abs()), id, msg, includeSender)
    {
      var room := clients[id].currentRoom;
      if room.Some? {
        BroadcastToRoom(room.value, msg, if includeSender then None else Some(id));
      }
    }

    method OnAudioMessage(id: ClientId, samples: seq<int>)
      requires id in clients
      modifies this
      ensures Abs() == OnAudioData(old(Abs()), id, samples)
    {
      var room := clients[id].currentRoom;
      if room.Some? && room.value in audio {
        var to := AudioRecipientSet(room.value, id);
        Send(to, AudioDataOut(id, samples));
      }
    }

    /** The message handler: one inbound event from connection `id`. */
    method OnMessage(id: ClientId, m: InMsg, now: int)
      requires Valid()
      modifies this
      ensures Abs() == Receive(old(Abs()), id, m, now)
      ensures Valid()
    {
      RelayProps.ReceivePreservesInv(Abs(), id, m, now);
      if id in clients {
        Dispatch(id, m, now);
      }
    }

    /** The `switch` over the type of an event from a registered connection. */
    method Dispatch(id: ClientId, m: InMsg, now: int)
      requires id in clients
      modifies this
      ensures Abs() == Receive(old(Abs()), id, m, now)
    {
      match m
      case Join(username, color) => OnJoinMessage(id, username, color);
      case PositionUpdate(x, y, room, timestamp, sitting) => OnPositionMessage(id, x, y, room, timestamp, sitting, now);
      case VideoState(playing, currentTime) => OnVideoMessage(id, playing, currentTime);
      case ChatMessage(message) => OnChatMessage(id, message, now);
      case Heartbeat => OnHeartbeat(id, now);
      case Ping =>
        OnHeartbeat(id, now);
        Send({id}, Pong);
      case AudioData(samples) => OnAudioMessage(id, samples);
      case _ => OnRelayMessage(id, m);
    }

    /** The `heartbeat` and `ping` cases: record the time of the heartbeat. */
    method OnHeartbeat(id: ClientId, now: int)
      requires id in clients
      modifies this
      ensures Abs() == Touch(old(Abs()), id, now)
    {
      clients := clients[id := clients[id].(lastHeartbeat := now)];
    }

    /** The cases of the message handler that only pass the event on to the
        sender's room, and the ones it ignores. */
    method OnRelayMessage(id: ClientId, m: InMsg)
      requires id in clients && IsRelayOnly(m)
      modifies this
      ensures Abs() == Receive(old(Abs()), id, m, 0)
    {
      match m
      case VideoFrame(data) =>
        if clients[id].currentRoom.Some? && clients[id].currentRoom.value in rooms {
          RelayToOwnRoom(id, VideoFrameOut(data), false);
        }
      case VideoReset => RelayToOwnRoom(id, VideoResetOut, false);
      case SeatState(seatIndex) => RelayToOwnRoom(id, SeatStateOut(id, seatIndex), false);
      case AudioSignal(to, signal) => RelayToOwnRoom(id, AudioSignalOut(id, to, signal), false);
      case Speaking(isSpeaking) => RelayToOwnRoom(id, UserSpeaking(id, isSpeaking), true);
      case PeanutSound => RelayToOwnRoom(id, PeanutSoundOut(id), false);
      case PeanutAnimation(animationType) => RelayToOwnRoom(id, PeanutAnimationOut(id, animationType), false);
      case Unknown(_) =>
      case Malformed =>
    }

    method CloseCurrentRoom(id: ClientId, r: RoomId)
      requires id in clients
      modifies this
      ensures Abs() == CloseRoom(old(Abs()), id, r)
    {
      if r !in rooms {
        return;
      }
      var c := clients[id];
      rooms := RemoveMember(rooms, r, id);
      ghost var s1 := Abs();
      if r in video && video[r] == id {
        video := video - {r};
        BroadcastToRoom(r, VideoStateOut(false, 0, None), None);
      }
      ghost var s2 := Abs();
      assert s2 == if r in s1.video && s1.video[r] == id
        then ToRoom(s1.(video := s1.video - {r}), r, VideoStateOut(false, 0, None), None)
        else s1;
      BroadcastToRoom(r, UserLeft(id, c.username, r), None);
      BroadcastToRoom(r, SeatStateOut(id, None), None);
      BroadcastToRoom(r, AudioRoomLeave(id), None);
      audio := LeaveAudio(audio, r, id);
    }

    /** The close handler of connection `id`. */
    method OnClose(id: ClientId)
      requires Valid()
      modifies this
      ensures Abs() == Close(old(Abs()), id)
      ensures Valid()
    {
      if id in clients {
        RelayProps.CloseKeepsInv(Abs(), id);
      }
      open := open - {id};
      if id !in clients {
        return;
      }
      var c := clients[id];
      if c.currentRoom.Some? {
        CloseCurrentRoom(id, c.currentRoom.value);
      }
      BroadcastToAll(PlayerDisconnected(id), None);
      clients := clients - {id};
    }

    /** The periodic heartbeat sweep, as written. */
    method SweepStale(now: int)
      requires Valid()
      modifies this
      ensures Abs() == Sweep(old(Abs()), now)
      ensures Valid()
    {
      RelayProps.SweepPreservesInv(Abs(), now);
      ghost var target := Sweep(Abs(), now);
      var kept := clients;
      var stillOpen := open;
      var pending := clients.Keys;
      while pending != {}
        invariant pending <= clients.Keys
        invariant forall u :: u in kept <==> u in clients && (u in pending || !Stale(clients[u], now))
        invariant forall u :: u in kept ==> kept[u] == clients[u]
        invariant forall u :: u in stillOpen <==> u in open && !(u in clients && u !in pending && Stale(clients[u], now))
        decreases pending
      {
        var u :| u in pending;
        if now - clients[u].lastHeartbeat > HeartbeatTimeout {
          stillOpen := stillOpen - {u};
          kept := kept - {u};
        }
        pending := pending - {u};
      }
      assert kept == target.clients;
      assert stillOpen == target.open;
      open := stillOpen;
      clients := kept;
    }
  }
}
