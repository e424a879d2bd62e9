/** Properties of the session relay (server/index.js), proved about the state
    machine of relay_spec.dfy: the map invariants every event keeps, the
    room-transition protocol, chat history, video sources, audio isolation,
    disconnect cleanup and the heartbeat sweep. */
module RelayProps {
  import opened Common
  import opened World
  import opened RelaySpec

  // ---------------------------------------------------------------------------
  // Audio groups follow the member sets

  lemma LeaveAudioMirrors(rooms: map<RoomId, Room>, r: RoomId, id: ClientId)
    requires r in rooms
    ensures LeaveAudio(AudioGroups(rooms), r, id) == AudioGroups(RemoveMember(rooms, r, id))
  {
    var a := LeaveAudio(AudioGroups(rooms), r, id);
    var b := AudioGroups(RemoveMember(rooms, r, id));
    assert forall q :: q in a <==> q in b;
  }

  lemma JoinAudioMirrors(rooms: map<RoomId, Room>, r: RoomId, id: ClientId)
    requires r in rooms
    ensures JoinAudio(AudioGroups(rooms), r, id) == AudioGroups(AddMember(rooms, r, id))
  {
    var a := JoinAudio(AudioGroups(rooms), r, id);
    var b := AudioGroups(AddMember(rooms, r, id));
    assert forall q :: q in a <==> q in b;
  }

  // ---------------------------------------------------------------------------
  // Room transitions

  /** The member sets after leaving `prev` and entering `newRoom`. */
  function Moved(rooms: map<RoomId, Room>, id: ClientId, prev: Option<RoomId>, newRoom: RoomId): map<RoomId, Room> {
    AddMember(if prev.Some? then RemoveMember(rooms, prev.value, id) else rooms, newRoom, id)
  }

  lemma LeaveRoomShape(s: State, id: ClientId, r: RoomId, now: int)
    requires id in s.clients && s.audio == AudioGroups(s.rooms)
    ensures var t := LeaveRoom(s, id, r, now);
      t.rooms == RemoveMember(s.rooms, r, id) && t.audio == AudioGroups(t.rooms)
  {
    if r in s.rooms {
      var c := s.clients[id];
      var s1 := s.(rooms := RemoveMember(s.rooms, r, id));
      var s2 := ToRoom(s1, r, UserLeft(id, c.username, r), None);
      var s3 := ToRoom(s2, r, SystemChat(r, c.username, false, now), None);
      var s4 := ToRoom(s3, r, AudioRoomLeave(id), None);
      assert s4.rooms == s1.rooms && s4.audio == s.audio;
      LeaveAudioMirrors(s.rooms, r, id);
    }
  }

  /** The batches writing each of `msgs`, in order, to the sockets `to`;
      nothing when `to` is empty. */
  function Announce(to: set<ClientId>, msgs: seq<OutMsg>): seq<Batch> {
    if to == {} then [] else seq(|msgs|, i requires 0 <= i < |msgs| => Batch(to, msgs[i]))
  }

  /** The fan-out sets and the roster depend only on the registry, the
      member sets and the sockets. */
  lemma SameRecipients(s: State, t: State, r: RoomId, exclude: Option<ClientId>)
    requires t.rooms == s.rooms && t.clients == s.clients && t.open == s.open
    ensures RoomRecipients(t, r, exclude) == RoomRecipients(s, r, exclude)
    ensures r in s.rooms ==> Roster(t, r) == Roster(s, r)
  {
  }

  /** A room broadcast appends one batch to its recipients, if any. */
  lemma ToRoomAnnounces(s: State, r: RoomId, msg: OutMsg, exclude: Option<ClientId>)
    ensures ToRoom(s, r, msg, exclude).outbox == s.outbox + Announce(RoomRecipients(s, r, exclude), [msg])
  {
    var to := RoomRecipients(s, r, exclude);
    if to != {} {
      assert Announce(to, [msg]) == [Batch(to, msg)];
    }
  }

  lemma AnnounceAppend(to: set<ClientId>, a: seq<OutMsg>, b: seq<OutMsg>)
    ensures Announce(to, a + b) == Announce(to, a) + Announce(to, b)
  {
  }

  /** What leaving a configured room sends: `userLeft`, the system line and
      `audioRoomLeave`, in that order, each to the members that remain
      registered and open. Leaving an unknown room does nothing. */
  lemma LeaveRoomSends(s: State, id: ClientId, r: RoomId, now: int)
    requires id in s.clients
    ensures var t := LeaveRoom(s, id, r, now);
      var c := s.clients[id];
      var to := RoomRecipients(s.(rooms := RemoveMember(s.rooms, r, id)), r, None);
      && (r !in s.rooms ==> t == s)
      && (forall u :: u in to <==> r in s.rooms && u in s.rooms[r].users && u != id && u in s.clients && u in s.open)
      && t.outbox == s.outbox + Announce(to, [UserLeft(id, c.username, r), SystemChat(r, c.username, false, now), AudioRoomLeave(id)])
  {
    if r in s.rooms {
      var c := s.clients[id];
      var s1 := s.(rooms := RemoveMember(s.rooms, r, id));
      var to := RoomRecipients(s1, r, None);
      var s2 := ToRoom(s1, r, UserLeft(id, c.username, r), None);
      SameRecipients(s1, s2, r, None);
      var s3 := ToRoom(s2, r, SystemChat(r, c.username, false, now), None);
      SameRecipients(s1, s3, r, None);
      var s4 := ToRoom(s3, r, AudioRoomLeave(id), None);
      assert LeaveRoom(s, id, r, now).outbox == s4.outbox;
      if to != {} {
        assert s4.outbox == s.outbox + [Batch(to, UserLeft(id, c.username, r)), Batch(to, SystemChat(r, c.username, false, now)), Batch(to, AudioRoomLeave(id))];
      }
    }
  }

  /** What entering a configured room sends: `userJoined` and the system
      line to the room, the mover included; then `roomChanged` to the mover
      alone with the room's name, its roster and its whole chat history; then
      `audioRoomJoin` with the same roster to the room. Entering an unknown
      room does nothing. */
  lemma EnterRoomSends(s: State, id: ClientId, r: RoomId, now: int)
    requires id in s.clients
    ensures var t := EnterRoom(s, id, r, now);
      var c := s.clients[id];
      var s1 := s.(rooms := AddMember(s.rooms, r, id));
      var to := RoomRecipients(s1, r, None);
      && (r !in s.rooms ==> t == s)
      && (forall u :: u in to <==> r in s.rooms && (u in s.rooms[r].users || u == id) && u in s.clients && u in s.open)
      && (r in s.rooms ==>
            var roster := Roster(s1, r);
            && roster.Keys == (s.rooms[r].users + {id}) * s.clients.Keys
            && t.outbox == s.outbox
                 + Announce(to, [UserJoined(id, c.username, r, c.color), SystemChat(r, c.username, true, now)])
                 + [Batch({id}, RoomChanged(r, s.rooms[r].info.name, roster, HistoryOf(s, r)))]
                 + Announce(to, [AudioRoomJoin(id, c.username, roster)]))
  {
    if r in s.rooms {
      var c := s.clients[id];
      var s1 := s.(rooms := AddMember(s.rooms, r, id));
      var s4 := Welcome(s, id, r, now);
      WelcomeSends(s, id, r, now);
      var s5 := s4.(audio := JoinAudio(s4.audio, r, id));
      SameRecipients(s1, s5, r, None);
      ToRoomAnnounces(s5, r, AudioRoomJoin(id, c.username, Roster(s5, r)), None);
      assert EnterRoom(s, id, r, now) == ToRoom(s5, r, AudioRoomJoin(id, c.username, Roster(s5, r)), None);
    }
  }

  /** The first part of an entry: `userJoined` and the system line to the
      room, then `roomChanged` to the mover alone. */
  lemma WelcomeSends(s: State, id: ClientId, r: RoomId, now: int)
    requires id in s.clients && r in s.rooms
    ensures var c := s.clients[id];
      var s1 := s.(rooms := AddMember(s.rooms, r, id));
      Welcome(s, id, r, now).outbox == s.outbox
        + Announce(RoomRecipients(s1, r, None), [UserJoined(id, c.username, r, c.color), SystemChat(r, c.username, true, now)])
        + [Batch({id}, RoomChanged(r, s.rooms[r].info.name, Roster(s1, r), HistoryOf(s, r)))]
  {
    var c := s.clients[id];
    var s1 := s.(rooms := AddMember(s.rooms, r, id));
    var to := RoomRecipients(s1, r, None);
    var m1, m2 := UserJoined(id, c.username, r, c.color), SystemChat(r, c.username, true, now);
    var s2 := ToRoom(s1, r, m1, None);
    ToRoomAnnounces(s1, r, m1, None);
    SameRecipients(s1, s2, r, None);
    var s3 := ToRoom(s2, r, m2, None);
    ToRoomAnnounces(s2, r, m2, None);
    SameRecipients(s1, s3, r, None);
    AnnounceAppend(to, [m1], [m2]);
    assert [m1] + [m2] == [m1, m2];
    assert Welcome(s, id, r, now) == Emit(s3, {id}, RoomChanged(r, s3.rooms[r].info.name, Roster(s3, r), HistoryOf(s3, r)));
  }

  lemma EnterRoomShape(s: State, id: ClientId, r: RoomId, now: int)
    requires id in s.clients && s.audio == AudioGroups(s.rooms)
    ensures var t := EnterRoom(s, id, r, now);
      t.rooms == AddMember(s.rooms, r, id) && t.audio == AudioGroups(t.rooms)
  {
    if r in s.rooms {
      JoinAudioMirrors(s.rooms, r, id);
    }
  }

  /** What `handleRoomChange` does to the member sets and the audio groups
      when the room really changes. */
  lemma RoomChangeShape(s: State, id: ClientId, newRoom: RoomId, now: int)
    requires id in s.clients && s.audio == AudioGroups(s.rooms)
    requires s.clients[id].currentRoom != Some(newRoom)
    ensures var t := RoomChange(s, id, newRoom, now);
      t.rooms == Moved(s.rooms, id, s.clients[id].currentRoom, newRoom) && t.audio == AudioGroups(t.rooms)
  {
    var c := s.clients[id];
    if c.currentRoom.Some? {
      LeaveRoomShape(s, id, c.currentRoom.value, now);
    }
    var s1 := if c.currentRoom.Some? then LeaveRoom(s, id, c.currentRoom.value, now) else s;
    var s2 := s1.(clients := s1.clients[id := c.(currentRoom := Some(newRoom))]);
    EnterRoomShape(s2, id, newRoom, now);
  }

  /** Changing to the room one is already in does nothing: no membership
      change and no message. */
  lemma RoomChangeSameRoomIsNoop(s: State, id: ClientId, newRoom: RoomId, now: int)
    requires id in s.clients && s.clients[id].currentRoom == Some(newRoom)
    ensures RoomChange(s, id, newRoom, now) == s
  {
  }

  /** Membership after `Moved`, given that `id` was only in `prev`'s set. */
  lemma MovedMembership(rooms: map<RoomId, Room>, id: ClientId, prev: Option<RoomId>, newRoom: RoomId)
    requires forall r: RoomId :: r in rooms && id in rooms[r].users ==> prev == Some(r)
    ensures var m := Moved(rooms, id, prev, newRoom);
      && m.Keys == rooms.Keys
      && (forall r: RoomId :: r in m ==> (id in m[r].users <==> r == newRoom))
      && (forall r: RoomId, u: ClientId :: r in m && u != id ==> (u in m[r].users <==> u in rooms[r].users))
  {
  }

  /** After a room change the connection's current room is the new room, even
      when that room is unknown; the connection is a member of the new room
      when it is configured and of no other room; everybody else's membership
      is as before; and the audio groups still mirror the member sets. */
  lemma RoomChangeMoves(s: State, id: ClientId, newRoom: RoomId, now: int)
    requires Inv(s) && id in s.clients
    ensures var t := RoomChange(s, id, newRoom, now);
      && t.clients[id].currentRoom == Some(newRoom)
      && (forall r: RoomId :: r in t.rooms ==> (id in t.rooms[r].users <==> r == newRoom))
      && (forall r: RoomId, u: ClientId :: r in t.rooms && u != id ==> (u in t.rooms[r].users <==> u in s.rooms[r].users))
      && t.audio == AudioGroups(t.rooms)
  {
    var prev := s.clients[id].currentRoom;
    if prev != Some(newRoom) {
      RoomChangeShape(s, id, newRoom, now);
      MovedMembership(s.rooms, id, prev, newRoom);
    } else {
      RoomChangeSameRoomIsNoop(s, id, newRoom, now);
    }
  }

  lemma MovedKeepsExclusive(s: State, id: ClientId, newRoom: RoomId, t: State)
    requires Inv(s) && id in s.clients
    requires t.rooms.Keys == s.rooms.Keys
    requires forall r: RoomId :: r in t.rooms ==> (id in t.rooms[r].users <==> r == newRoom)
    requires forall r: RoomId, u: ClientId :: r in t.rooms && u != id ==> (u in t.rooms[r].users <==> u in s.rooms[r].users)
    ensures MembershipExclusive(t)
  {
    forall r1: RoomId, r2: RoomId, u: ClientId | r1 in t.rooms && r2 in t.rooms && u in t.rooms[r1].users && u in t.rooms[r2].users
      ensures r1 == r2
    {
      if u != id {
        assert u in s.rooms[r1].users && u in s.rooms[r2].users;
      }
    }
  }

  /** `handleRoomChange` keeps every invariant of the maps. */
  lemma {:induction false} RoomChangePreservesInv(s: State, id: ClientId, newRoom: RoomId, now: int)
    requires Inv(s) && id in s.clients
    ensures Inv(RoomChange(s, id, newRoom, now))
  {
    var t := RoomChange(s, id, newRoom, now);
    RoomChangeMoves(s, id, newRoom, now);
    MovedKeepsExclusive(s, id, newRoom, t);
    MovedKeepsAgree(s, id, newRoom, t);
    assert HistoriesBounded(t);
  }

  lemma MovedKeepsAgree(s: State, id: ClientId, newRoom: RoomId, t: State)
    requires Inv(s) && id in s.clients
    requires t.clients == s.clients[id := s.clients[id].(currentRoom := Some(newRoom))]
    requires t.rooms.Keys == s.rooms.Keys
    requires forall r: RoomId :: r in t.rooms ==> (id in t.rooms[r].users <==> r == newRoom)
    requires forall r: RoomId, u: ClientId :: r in t.rooms && u != id ==> (u in t.rooms[r].users <==> u in s.rooms[r].users)
    ensures MembersAgree(t)
  {
    forall r: RoomId, u: ClientId | r in t.rooms && u in t.rooms[r].users && u in t.clients
      ensures t.clients[u].currentRoom == Some(r)
    {
      if u != id {
        assert u in s.rooms[r].users;
      }
    }
    forall u | u in t.clients && t.clients[u].currentRoom.Some? && t.clients[u].currentRoom.value in t.rooms
      ensures u in t.rooms[t.clients[u].currentRoom.value].users
    {
      if u != id {
        assert u in s.rooms[s.clients[u].currentRoom.value].users;
      }
    }
  }

  /** `b` is the `roomChanged` batch that welcomes `id` alone into room `r`
      with the given name, chat history and roster. */
  ghost predicate IsWelcome(b: Batch, id: ClientId, r: RoomId, name: string, history: seq<ChatMsg>, roster: map<ClientId, Profile>) {
    b.to == {id} && b.msg.RoomChanged? && b.msg.roomId == r && b.msg.roomName == name
    && b.msg.chatHistory == history && b.msg.users == roster
  }

  /** Entering a configured room hands the entering connection, and only it,
      the room's name, its roster (the members so far and the mover) and the
      room's whole chat history: history is kept per room, not per visit. */
  lemma RoomEntryDeliversHistory(s: State, id: ClientId, newRoom: RoomId, now: int)
    requires id in s.clients && newRoom in s.rooms && s.clients[id].currentRoom != Some(newRoom)
    ensures var t := RoomChange(s, id, newRoom, now);
      exists k :: |s.outbox| <= k < |t.outbox| &&
        IsWelcome(t.outbox[k], id, newRoom, s.rooms[newRoom].info.name, HistoryOf(s, newRoom),
                  Roster(s.(rooms := AddMember(s.rooms, newRoom, id)), newRoom))
  {
    DepartedEntry(s, id, newRoom, now);
    DepartedFacts(s, id, newRoom, now);
    var d := Departed(s, id, newRoom, now);
    var t := EnterRoom(d, id, newRoom, now);
    EnterRoomDeliversHistory(d, id, newRoom, now);
    var k :| |d.outbox| <= k < |t.outbox| &&
      IsWelcome(t.outbox[k], id, newRoom, d.rooms[newRoom].info.name, HistoryOf(d, newRoom),
                Roster(d.(rooms := AddMember(d.rooms, newRoom, id)), newRoom));
    SameRoster(d.(rooms := AddMember(d.rooms, newRoom, id)), s.(rooms := AddMember(s.rooms, newRoom, id)), newRoom);
  }

  /** The state between the leave and the entry of a room change. */
  function Departed(s: State, id: ClientId, newRoom: RoomId, now: int): State
    requires id in s.clients
  {
    var c := s.clients[id];
    var s1 := if c.currentRoom.Some? then LeaveRoom(s, id, c.currentRoom.value, now) else s;
    s1.(clients := s1.clients[id := c.(currentRoom := Some(newRoom))])
  }

  /** A real room change is an entry from the departed state. */
  lemma DepartedEntry(s: State, id: ClientId, newRoom: RoomId, now: int)
    requires id in s.clients && s.clients[id].currentRoom != Some(newRoom)
    ensures RoomChange(s, id, newRoom, now) == EnterRoom(Departed(s, id, newRoom, now), id, newRoom, now)
  {
  }

  /** The departed state agrees with the old state on the new room, its
      history and every name and colour. */
  lemma DepartedFacts(s: State, id: ClientId, newRoom: RoomId, now: int)
    requires id in s.clients && newRoom in s.rooms && s.clients[id].currentRoom != Some(newRoom)
    ensures var d := Departed(s, id, newRoom, now);
      && id in d.clients && newRoom in d.rooms && d.rooms[newRoom] == s.rooms[newRoom]
      && HistoryOf(d, newRoom) == HistoryOf(s, newRoom)
      && d.clients.Keys == s.clients.Keys
      && (forall u :: u in d.clients ==>
            d.clients[u].username == s.clients[u].username && d.clients[u].color == s.clients[u].color)
      && |s.outbox| <= |d.outbox|
  {
    var c := s.clients[id];
    if c.currentRoom.Some? {
      var s1 := LeaveRoom(s, id, c.currentRoom.value, now);
      assert SameButMembership(s, s1);
      assert s1.rooms[newRoom] == s.rooms[newRoom];
    }
  }

  /** The `roomChanged` batch of an entry into a configured room. */
  lemma EnterRoomDeliversHistory(s: State, id: ClientId, r: RoomId, now: int)
    requires id in s.clients && r in s.rooms
    ensures var t := EnterRoom(s, id, r, now);
      exists k :: |s.outbox| <= k < |t.outbox| &&
        IsWelcome(t.outbox[k], id, r, s.rooms[r].info.name, HistoryOf(s, r), Roster(s.(rooms := AddMember(s.rooms, r, id)), r))
  {
    var w := Welcome(s, id, r, now);
    var t := EnterRoom(s, id, r, now);
    var k := |w.outbox| - 1;
    assert Extends(w.outbox, t.outbox);
    assert t.outbox[k] == w.outbox[k];
  }

  /** A roster depends only on the room's member set and on the names and
      colours of the registered connections. */
  lemma SameRoster(a: State, b: State, r: RoomId)
    requires r in a.rooms && r in b.rooms && a.rooms[r].users == b.rooms[r].users
    requires a.clients.Keys == b.clients.Keys
    requires forall u :: u in a.clients ==>
      a.clients[u].username == b.clients[u].username && a.clients[u].color == b.clients[u].color
    ensures Roster(a, r) == Roster(b, r)
  {
  }

  /** A room change never clears a video source: the source of the room the
      connection left still names it. */
  lemma RoomChangeKeepsVideoSource(s: State, id: ClientId, newRoom: RoomId, now: int)
    requires id in s.clients
    requires s.clients[id].currentRoom.Some? && s.clients[id].currentRoom != Some(newRoom)
    requires var r := s.clients[id].currentRoom.value; r in s.video && s.video[r] == id
    ensures var t := RoomChange(s, id, newRoom, now);
      var r := s.clients[id].currentRoom.value;
      r in t.video && t.video[r] == id && t.clients[id].currentRoom != Some(r)
  {
  }

  // ---------------------------------------------------------------------------
  // Chat history

  /** The newest `HistoryCapacity` lines of `lines`. */
  function Newest(lines: seq<ChatMsg>): (r: seq<ChatMsg>)
    ensures |r| == if |lines| <= HistoryCapacity then |lines| else HistoryCapacity
  {
    if |lines| <= HistoryCapacity then lines else lines[|lines| - HistoryCapacity..]
  }

  /** The history after a run of chat lines appended one by one. */
  function AppendAll(h: seq<ChatMsg>, lines: seq<ChatMsg>): seq<ChatMsg>
    decreases |lines|
  {
    if lines == [] then h else AppendAll(AppendBounded(h, lines[0]), lines[1..])
  }

  lemma NewestOfLongSuffix(x: seq<ChatMsg>, k: nat, tail: seq<ChatMsg>)
    requires k <= |x| && |x| - k >= (if |x| <= HistoryCapacity then |x| else HistoryCapacity)
    ensures Newest(x[k..] + tail) == Newest(x + tail)
  {
    var a := x[k..] + tail;
    var b := x + tail;
    assert a == b[k..];
    if |a| >= HistoryCapacity {
      var start := |b| - HistoryCapacity;
      assert Newest(a) == a[start - k..];
      assert Newest(b) == b[start..];
      assert b[k..][start - k..] == b[start..];
    } else {
      assert k == 0;
    }
  }

  /** Chat history is a FIFO of capacity 100: starting from any history of
      at most 100 lines, appending lines one by one leaves exactly the newest
      100 of all lines, oldest first. */
  lemma {:induction false} AppendAllKeepsNewest(h: seq<ChatMsg>, lines: seq<ChatMsg>)
    requires |h| <= HistoryCapacity
    ensures AppendAll(h, lines) == Newest(h + lines)
    decreases |lines|
  {
    if lines == [] {
      assert h + lines == h;
    } else {
      var h1 := AppendBounded(h, lines[0]);
      AppendAllKeepsNewest(h1, lines[1..]);
      var g := h + [lines[0]];
      assert g + lines[1..] == h + lines;
      if |g| > HistoryCapacity {
        assert h1 == g[1..];
        NewestOfLongSuffix(g, 1, lines[1..]);
      } else {
        assert h1 == g;
      }
    }
  }

  /** A chat event is dropped unless the sender has a room, a name and a text;
      otherwise its text is cut to 500 characters, appended to the room's
      history (which stays within 100 lines) and sent to the whole room,
      sender included. */
  lemma ChatSemantics(s: State, id: ClientId, message: Option<string>, now: int)
    requires Inv(s) && id in s.clients
    ensures var t := Receive(s, id, ChatMessage(message), now);
      var c := s.clients[id];
      && (c.currentRoom.None? || !Truthy(c.username) || message.None? ==> t == s)
      && (c.currentRoom.Some? && Truthy(c.username) && message.Some? ==>
            var r := c.currentRoom.value;
            var line := ChatMsg(r, c.username.value, Truncate(message.value, MaxChatLength), now);
            && |line.text| <= MaxChatLength
            && (r in s.rooms ==> t.history == s.history[r := AppendBounded(s.history[r], line)] && |t.history[r]| <= HistoryCapacity)
            && (r !in s.rooms ==> t.history == s.history)
            && t == ToRoom(s.(history := t.history), r, Chat(line), None))
  {
  }

  // ---------------------------------------------------------------------------
  // Video sources

  /** `videoState`: playing makes the sender the room's source whatever was
      recorded; stopping clears the record only when the sender is the
      recorded source; other rooms are untouched; the event goes to the whole
      room, sender included, with the sender as `sourceId`. Without a current
      room nothing happens. */
  lemma VideoStateSemantics(s: State, id: ClientId, playing: bool, currentTime: int, now: int)
    requires id in s.clients
    ensures var t := Receive(s, id, VideoState(playing, currentTime), now);
      match s.clients[id].currentRoom
      case None => t == s
      case Some(r) =>
        && (playing ==> r in t.video && t.video[r] == id)
        && (!playing ==> (r in t.video <==> r in s.video && s.video[r] != id))
        && (forall q :: q != r ==> (q in t.video <==> q in s.video) && (q in s.video ==> t.video[q] == s.video[q]))
        && (r in t.video ==> t.video[r] == if playing then id else s.video[r])
        && t == ToRoom(s.(video := t.video), r, VideoStateOut(playing, currentTime, Some(id)), None)
  {
  }

  // ---------------------------------------------------------------------------
  // Audio

  /** Audio isolation: every connection an `audioData` event from `id` reaches
      is registered, is not the sender, and is currently in the sender's room;
      with no audio group for that room the event reaches nobody. */
  lemma AudioIsolation(s: State, id: ClientId, samples: seq<int>, now: int)
    requires Inv(s) && id in s.clients
    ensures var t := Receive(s, id, AudioData(samples), now);
      var room := s.clients[id].currentRoom;
      && Extends(s.outbox, t.outbox)
      && (room.None? || room.value !in s.audio ==> t == s)
      && (forall k, u :: |s.outbox| <= k < |t.outbox| && u in t.outbox[k].to ==>
            u != id && u in s.clients && room.Some? && s.clients[u].currentRoom == room)
  {
    var t := Receive(s, id, AudioData(samples), now);
    var room := s.clients[id].currentRoom;
    if room.Some? && room.value in s.audio {
      var r := room.value;
      var to := AudioRecipients(s, r, id);
      forall k, u | |s.outbox| <= k < |t.outbox| && u in t.outbox[k].to
        ensures u != id && u in s.clients && s.clients[u].currentRoom == room
      {
        assert t.outbox == s.outbox + [Batch(to, AudioDataOut(id, samples))];
        assert t.outbox[k].to == to;
        assert u in s.audio[r] && u in s.open;
        assert u in s.rooms[r].users;
      }
    }
  }

  // ---------------------------------------------------------------------------
  // The dispatcher

  /** `join` has no "not yet joined" guard: a second `join` overwrites name,
      colour and position but leaves the current room and every member set
      as they were. */
  lemma JoinIsNotGuarded(s: State, id: ClientId, username: Option<string>, color: Option<string>, now: int)
    requires id in s.clients
    ensures var t := Receive(s, id, Join(username, color), now);
      && t.clients.Keys == s.clients.Keys
      && t.clients[id] == s.clients[id].(username := username, color := color, position := JoinPosition(s))
      && t.rooms == s.rooms && t.audio == s.audio && t.video == s.video && t.history == s.history
  {
  }

  lemma PositionUpdatePreservesInv(s: State, id: ClientId, x: int, y: int, room: Option<RoomId>,
                                   timestamp: Option<int>, sitting: bool, now: int)
    requires Inv(s) && id in s.clients
    ensures Inv(OnPositionUpdate(s, id, x, y, room, timestamp, sitting, now))
  {
    var s1 := s.(clients := s.clients[id := s.clients[id].(position := Pos(x, y))]);
    assert MembersAgree(s1);
    RoomChangePreservesInv(s1, id, TargetRoom(room), now);
  }

  lemma ChatPreservesInv(s: State, id: ClientId, message: Option<string>, now: int)
    requires Inv(s) && id in s.clients
    ensures Inv(OnChat(s, id, message, now))
  {
    var c := s.clients[id];
    if c.currentRoom.Some? && Truthy(c.username) && message.Some? {
      var r := c.currentRoom.value;
      var line := ChatMsg(r, c.username.value, Truncate(message.value, MaxChatLength), now);
      if r in s.history {
        var h := AppendBounded(s.history[r], line);
        HistoryUpdatePreservesInv(s, r, h);
        var s1 := s.(history := s.history[r := h]);
        assert OnChat(s, id, message, now) == ToRoom(s1, r, Chat(line), None);
        OutputOnlyPreservesInv(s1, ToRoom(s1, r, Chat(line), None));
      } else {
        OutputOnlyPreservesInv(s, ToRoom(s, r, Chat(line), None));
      }
    }
  }

  lemma JoinPreservesInv(s: State, id: ClientId, username: Option<string>, color: Option<string>)
    requires Inv(s) && id in s.clients
    ensures Inv(OnJoin(s, id, username, color))
  {
    var s1 := s.(clients := s.clients[id := s.clients[id].(username := username, color := color, position := JoinPosition(s))]);
    assert MembersAgree(s1);
  }

  lemma TouchPreservesInv(s: State, id: ClientId, now: int)
    requires Inv(s) && id in s.clients
    ensures Inv(Touch(s, id, now))
  {
    assert MembersAgree(Touch(s, id, now));
  }

  /** Every inbound event keeps the invariants. */
  lemma {:induction false} ReceivePreservesInv(s: State, id: ClientId, m: InMsg, now: int)
    requires Inv(s)
    ensures Inv(Receive(s, id, m, now))
  {
    if id in s.clients {
      match m
      case Join(username, color) => JoinPreservesInv(s, id, username, color);
      case PositionUpdate(x, y, room, timestamp, sitting) =>
        PositionUpdatePreservesInv(s, id, x, y, room, timestamp, sitting, now);
      case ChatMessage(message) => ChatPreservesInv(s, id, message, now);
      case Heartbeat => TouchPreservesInv(s, id, now);
      case Ping =>
        TouchPreservesInv(s, id, now);
        OutputOnlyPreservesInv(Touch(s, id, now), Emit(Touch(s, id, now), {id}, Pong));
      case VideoState(playing, currentTime) =>
        OutputOnlyPreservesInv(s, OnVideoState(s, id, playing, currentTime));
      case AudioData(data) => OutputOnlyPreservesInv(s, OnAudioData(s, id, data));
      case _ => RelayPreservesInv(s, id, m, now);
    }
  }

  /** The events the server only passes on to the sender's room, and the
      ones it ignores, keep the invariants. */
  lemma RelayPreservesInv(s: State, id: ClientId, m: InMsg, now: int)
    requires Inv(s) && id in s.clients && IsRelayOnly(m)
    ensures Inv(Receive(s, id, m, now))
  {
    var t := Receive(s, id, m, now);
    assert t == s.(outbox := t.outbox);
    OutputOnlyPreservesInv(s, t);
  }

  /** Replacing a configured room's history by one within capacity keeps the
      invariants. */
  lemma HistoryUpdatePreservesInv(s: State, r: RoomId, h: seq<ChatMsg>)
    requires Inv(s) && r in s.history && |h| <= HistoryCapacity
    ensures Inv(s.(history := s.history[r := h]))
  {
    var t := s.(history := s.history[r := h]);
    assert HistoriesBounded(t);
    assert MembersAgree(t);
  }

  /** An event that changes nothing but the outbox and the video sources
      keeps the invariants. */
  lemma OutputOnlyPreservesInv(s: State, t: State)
    requires Inv(s)
    requires t.rooms == s.rooms && t.clients == s.clients && t.open == s.open
    requires t.history == s.history && t.audio == s.audio
    ensures Inv(t)
  {
    assert MembersAgree(t);
  }

  /** Accepting a socket with a never-used id keeps the invariants. */
  lemma ConnectPreservesInv(s: State, id: ClientId, now: int)
    requires Inv(s) && Fresh(s, id)
    ensures Inv(Connect(s, id, now))
  {
  }

  // ---------------------------------------------------------------------------
  // Disconnect cleanup

  lemma CloseRoomShape(s: State, id: ClientId, r: RoomId)
    requires id in s.clients && s.audio == AudioGroups(s.rooms)
    ensures var t := CloseRoom(s, id, r);
      && t.rooms == RemoveMember(s.rooms, r, id)
      && t.audio == AudioGroups(t.rooms)
      && t.video == (if r in s.rooms && r in s.video && s.video[r] == id then s.video - {r} else s.video)
  {
    if r in s.rooms {
      var c := s.clients[id];
      var s1 := s.(rooms := RemoveMember(s.rooms, r, id));
      var s2 := if r in s1.video && s1.video[r] == id
                then ToRoom(s1.(video := s1.video - {r}), r, VideoStateOut(false, 0, None), None)
                else s1;
      var s3 := ToRoom(s2, r, UserLeft(id, c.username, r), None);
      var s4 := ToRoom(s3, r, SeatStateOut(id, None), None);
      var s5 := ToRoom(s4, r, AudioRoomLeave(id), None);
      assert s5.rooms == s1.rooms && s5.audio == s.audio;
      LeaveAudioMirrors(s.rooms, r, id);
    }
  }

  /** What the room cleanup of a closing connection sends to the members
      that remain registered and open: the stop event (only when the
      connection was the room's video source), then `userLeft`, a `seatState`
      with no seat and `audioRoomLeave`. An unknown room is left alone. */
  lemma CloseRoomSends(s: State, id: ClientId, r: RoomId)
    requires id in s.clients
    ensures var t := CloseRoom(s, id, r);
      var c := s.clients[id];
      var to := RoomRecipients(s.(rooms := RemoveMember(s.rooms, r, id)), r, None);
      var stop: seq<OutMsg> := if r in s.video && s.video[r] == id then [VideoStateOut(false, 0, None)] else [];
      && (r !in s.rooms ==> t == s)
      && (forall u :: u in to <==> r in s.rooms && u in s.rooms[r].users && u != id && u in s.clients && u in s.open)
      && t.outbox == s.outbox + Announce(to, stop + [UserLeft(id, c.username, r), SeatStateOut(id, None), AudioRoomLeave(id)])
  {
    if r in s.rooms {
      CloseRoomOutbox(s, id, r);
    }
  }

  lemma CloseRoomOutbox(s: State, id: ClientId, r: RoomId)
    requires id in s.clients && r in s.rooms
    ensures var c := s.clients[id];
      var to := RoomRecipients(s.(rooms := RemoveMember(s.rooms, r, id)), r, None);
      var stop: seq<OutMsg> := if r in s.video && s.video[r] == id then [VideoStateOut(false, 0, None)] else [];
      CloseRoom(s, id, r).outbox == s.outbox + Announce(to, stop + [UserLeft(id, c.username, r), SeatStateOut(id, None), AudioRoomLeave(id)])
  {
    var c := s.clients[id];
    var s1 := s.(rooms := RemoveMember(s.rooms, r, id));
    var to := RoomRecipients(s1, r, None);
    var stop: seq<OutMsg> := if r in s.video && s.video[r] == id then [VideoStateOut(false, 0, None)] else [];
    var m1, m2, m3 := UserLeft(id, c.username, r), SeatStateOut(id, None), AudioRoomLeave(id);
    var s2 := StopVideo(s1, id, r);
    CloseRoomUnfold(s, id, r);
    StopVideoSends(s1, id, r);
    SameRecipients(s1, s2, r, None);
    ToRoomThrice(s2, r, m1, m2, m3);
    AnnounceAppend(to, stop, [m1, m2, m3]);
  }

  /** The stop event of the close cleanup: when the connection is the room's
      video source, clear the source and tell the room. */
  function StopVideo(s1: State, id: ClientId, r: RoomId): State {
    if r in s1.video && s1.video[r] == id
    then ToRoom(s1.(video := s1.video - {r}), r, VideoStateOut(false, 0, None), None)
    else s1
  }

  lemma StopVideoSends(s1: State, id: ClientId, r: RoomId)
    ensures var x := StopVideo(s1, id, r);
      var stop: seq<OutMsg> := if r in s1.video && s1.video[r] == id then [VideoStateOut(false, 0, None)] else [];
      && x.rooms == s1.rooms && x.clients == s1.clients && x.open == s1.open
      && x.outbox == s1.outbox + Announce(RoomRecipients(s1, r, None), stop)
  {
    if r in s1.video && s1.video[r] == id {
      SameRecipients(s1, s1.(video := s1.video - {r}), r, None);
      ToRoomAnnounces(s1.(video := s1.video - {r}), r, VideoStateOut(false, 0, None), None);
    }
  }

  /** The close cleanup of a configured room is the stop event followed by
      three room broadcasts. */
  lemma CloseRoomUnfold(s: State, id: ClientId, r: RoomId)
    requires id in s.clients && r in s.rooms
    ensures var c := s.clients[id];
      var s2 := StopVideo(s.(rooms := RemoveMember(s.rooms, r, id)), id, r);
      CloseRoom(s, id, r).outbox
        == ToRoom(ToRoom(ToRoom(s2, r, UserLeft(id, c.username, r), None), r, SeatStateOut(id, None), None), r, AudioRoomLeave(id), None).outbox
  {
  }

  /** Three room broadcasts in a row announce the three messages, in order,
      to the recipients of the first. */
  lemma ToRoomThrice(x: State, r: RoomId, m1: OutMsg, m2: OutMsg, m3: OutMsg)
    ensures ToRoom(ToRoom(ToRoom(x, r, m1, None), r, m2, None), r, m3, None).outbox
      == x.outbox + Announce(RoomRecipients(x, r, None), [m1, m2, m3])
  {
    var to := RoomRecipients(x, r, None);
    var x1 := ToRoom(x, r, m1, None);
    ToRoomAnnounces(x, r, m1, None);
    SameRecipients(x, x1, r, None);
    var x2 := ToRoom(x1, r, m2, None);
    ToRoomAnnounces(x1, r, m2, None);
    SameRecipients(x, x2, r, None);
    ToRoomAnnounces(x2, r, m3, None);
    AnnounceAppend(to, [m1], [m2]);
    AnnounceAppend(to, [m1, m2], [m3]);
    assert [m1] + [m2] == [m1, m2] && [m1, m2] + [m3] == [m1, m2, m3];
  }

  /** What the close handler of a registered connection sends: the room
      cleanup's batches, then `playerDisconnected` to every other registered
      connection with an open socket. */
  lemma CloseSends(s: State, id: ClientId)
    requires id in s.clients
    ensures var t := Close(s, id);
      var s0 := s.(open := s.open - {id});
      var room := s.clients[id].currentRoom;
      var all := AllRecipients(s0, None);
      && (forall u :: u in all <==> u in s.clients && u in s.open && u != id)
      && t.outbox == (if room.Some? then CloseRoom(s0, id, room.value).outbox else s.outbox)
                     + Announce(all, [PlayerDisconnected(id)])
  {
    var s0 := s.(open := s.open - {id});
    var room := s.clients[id].currentRoom;
    var s1 := if room.Some? then CloseRoom(s0, id, room.value) else s0;
    var all := AllRecipients(s0, None);
    assert AllRecipients(s1, None) == all;
    if all != {} {
      assert Announce(all, [PlayerDisconnected(id)]) == [Batch(all, PlayerDisconnected(id))];
    }
  }

  /** What the close handler does to the maps of a registered connection. */
  lemma CloseShape(s: State, id: ClientId)
    requires id in s.clients && s.audio == AudioGroups(s.rooms)
    ensures var t := Close(s, id);
      var room := s.clients[id].currentRoom;
      && t.clients == s.clients - {id}
      && t.open == s.open - {id}
      && t.history == s.history
      && t.rooms == (if room.Some? then RemoveMember(s.rooms, room.value, id) else s.rooms)
      && t.audio == AudioGroups(t.rooms)
      && t.video == (if room.Some? && room.value in s.rooms && room.value in s.video && s.video[room.value] == id
                     then s.video - {room.value} else s.video)
  {
    var s0 := s.(open := s.open - {id});
    var c := s0.clients[id];
    if c.currentRoom.Some? {
      CloseRoomShape(s0, id, c.currentRoom.value);
    }
  }

  /** A connection that is gone: no registry entry, no open socket, in no
      member set. */
  ghost predicate Gone(s: State, u: ClientId) {
    u !in s.clients && u !in s.open && forall r :: r in s.rooms ==> u !in s.rooms[r].users
  }

  /** Taking `id` out of the only member set it is in. */
  lemma RemovedMembership(rooms: map<RoomId, Room>, id: ClientId, prev: Option<RoomId>)
    requires forall r: RoomId :: r in rooms && id in rooms[r].users ==> prev == Some(r)
    ensures var m := if prev.Some? then RemoveMember(rooms, prev.value, id) else rooms;
      && m.Keys == rooms.Keys
      && (forall r: RoomId :: r in m ==> id !in m[r].users)
      && (forall r: RoomId, u: ClientId :: r in m && u != id ==> (u in m[r].users <==> u in rooms[r].users))
  {
  }

  /** Any state of the shape the close handler leaves satisfies the
      invariants. */
  lemma RemovalKeepsInv(s: State, id: ClientId, t: State)
    requires Inv(s) && id in s.clients
    requires t.clients == s.clients - {id} && t.open == s.open - {id} && t.history == s.history
    requires var room := s.clients[id].currentRoom;
      t.rooms == (if room.Some? then RemoveMember(s.rooms, room.value, id) else s.rooms)
    requires t.audio == AudioGroups(t.rooms)
    ensures Inv(t)
  {
    RemovedMembership(s.rooms, id, s.clients[id].currentRoom);
    RemovalKeepsExclusive(s, id, t);
    RemovalKeepsAgree(s, id, t);
    assert HistoriesBounded(t);
  }

  lemma RemovalKeepsExclusive(s: State, id: ClientId, t: State)
    requires MembershipExclusive(s) && t.rooms.Keys == s.rooms.Keys
    requires forall r: RoomId, u: ClientId :: r in t.rooms && u != id ==> (u in t.rooms[r].users <==> u in s.rooms[r].users)
    requires forall r: RoomId :: r in t.rooms ==> id !in t.rooms[r].users
    ensures MembershipExclusive(t)
  {
    forall r1: RoomId, r2: RoomId, u: ClientId | r1 in t.rooms && r2 in t.rooms && u in t.rooms[r1].users && u in t.rooms[r2].users
      ensures r1 == r2
    {
      assert u in s.rooms[r1].users && u in s.rooms[r2].users;
    }
  }

  lemma RemovalKeepsAgree(s: State, id: ClientId, t: State)
    requires MembersAgree(s) && t.rooms.Keys == s.rooms.Keys && t.clients == s.clients - {id}
    requires forall r: RoomId, u: ClientId :: r in t.rooms && u != id ==> (u in t.rooms[r].users <==> u in s.rooms[r].users)
    ensures MembersAgree(t)
  {
    forall r: RoomId, u: ClientId | r in t.rooms && u in t.rooms[r].users && u in t.clients
      ensures t.clients[u].currentRoom == Some(r)
    {
      assert u in s.rooms[r].users;
    }
  }

  lemma CloseKeepsInv(s: State, id: ClientId)
    requires Inv(s) && id in s.clients
    ensures Inv(Close(s, id))
  {
    CloseShape(s, id);
    RemovalKeepsInv(s, id, Close(s, id));
  }

  /** After the close handler of a registered connection it is gone, it is in
      no audio group and no longer the video source of the room it was in,
      everybody else's membership is unchanged, and the invariants hold. */
  lemma CloseCleansUp(s: State, id: ClientId)
    requires Inv(s) && id in s.clients
    ensures var t := Close(s, id);
      && Inv(t)
      && Gone(t, id)
      && (forall r :: r in t.audio ==> id !in t.audio[r])
      && (forall r: RoomId, u: ClientId :: r in s.rooms && u != id ==> (u in t.rooms[r].users <==> u in s.rooms[r].users))
      && (var room := s.clients[id].currentRoom;
          room.Some? && room.value in s.rooms ==> !(room.value in t.video && t.video[room.value] == id))
  {
    CloseKeepsInv(s, id);
    CloseRemovesMember(s, id);
    CloseDropsVideo(s, id);
  }

  /** The closing connection leaves every room and audio group; nobody
      else's membership changes. */
  lemma CloseRemovesMember(s: State, id: ClientId)
    requires Inv(s) && id in s.clients
    ensures var t := Close(s, id);
      && Gone(t, id)
      && (forall r :: r in t.audio ==> id !in t.audio[r])
      && (forall r: RoomId, u: ClientId :: r in s.rooms && u != id ==> (u in t.rooms[r].users <==> u in s.rooms[r].users))
  {
    CloseShape(s, id);
    RemovedMembership(s.rooms, id, s.clients[id].currentRoom);
  }

  /** The closing connection is no longer the video source of its room. */
  lemma CloseDropsVideo(s: State, id: ClientId)
    requires Inv(s) && id in s.clients
    ensures var t := Close(s, id);
      var room := s.clients[id].currentRoom;
      room.Some? && room.value in s.rooms ==> !(room.value in t.video && t.video[room.value] == id)
  {
    CloseShape(s, id);
  }

  /** A source that moved rooms and then closed: the close handler clears the
      source of the room it was in last, so the room it streamed in still
      names a connection that no longer exists. */
  lemma MovedSourceOutlivesClose(s: State, id: ClientId, newRoom: RoomId, now: int)
    requires Inv(s) && id in s.clients
    requires s.clients[id].currentRoom.Some? && s.clients[id].currentRoom != Some(newRoom)
    requires var r := s.clients[id].currentRoom.value; r in s.video && s.video[r] == id
    ensures var t := Close(RoomChange(s, id, newRoom, now), id);
      var r := s.clients[id].currentRoom.value;
      r in t.video && t.video[r] == id && Gone(t, id)
  {
    var m := RoomChange(s, id, newRoom, now);
    var r := s.clients[id].currentRoom.value;
    RoomChangeKeepsVideoSource(s, id, newRoom, now);
    RoomChangePreservesInv(s, id, newRoom, now);
    CloseShape(m, id);
    CloseRemovesMember(m, id);
    assert m.clients[id].currentRoom == Some(newRoom);
  }

  /** Every video source except those naming `id`. */
  function ReleaseVideo(t: State, id: ClientId): State {
    t.(video := map r | r in t.video && t.video[r] != id :: t.video[r])
  }

  /** The close handler followed by dropping every video source that still
      names the closed connection, whatever room it streamed in. */
  function CloseReleasingVideo(s: State, id: ClientId): State {
    ReleaseVideo(Close(s, id), id)
  }

  /** After the corrected close the connection is gone, no room names it as
      its video source, every other source is kept, and the invariants hold. */
  lemma CloseReleasingVideoCleansUp(s: State, id: ClientId)
    requires Inv(s) && id in s.clients
    ensures var t := CloseReleasingVideo(s, id);
      && Inv(t)
      && Gone(t, id)
      && (forall r :: r in t.video ==> t.video[r] != id)
      && (forall r :: r in s.video && s.video[r] != id ==> r in t.video && t.video[r] == s.video[r])
  {
    var c := Close(s, id);
    CloseKeepsInv(s, id);
    CloseRemovesMember(s, id);
    CloseKeepsOtherSources(s, id);
    OutputOnlyPreservesInv(c, ReleaseVideo(c, id));
  }

  /** The close handler clears at most a source naming the closing connection. */
  lemma CloseKeepsOtherSources(s: State, id: ClientId)
    requires Inv(s) && id in s.clients
    ensures var c := Close(s, id);
      forall r :: r in s.video && s.video[r] != id ==> r in c.video && c.video[r] == s.video[r]
  {
    CloseShape(s, id);
  }

  /** Closing any connection never brings back one that is gone. */
  lemma CloseKeepsGone(s: State, v: ClientId, u: ClientId)
    requires Inv(s) && Gone(s, u)
    ensures Gone(Close(s, v), u)
  {
    if v in s.clients {
      CloseShape(s, v);
      GoneAfterRemoval(s, Close(s, v), u, v, s.clients[v].currentRoom);
    }
  }

  /** Taking a connection out of a member set never puts another one in. */
  lemma GoneAfterRemoval(s: State, t: State, u: ClientId, v: ClientId, room: Option<RoomId>)
    requires Gone(s, u) && u !in t.clients && u !in t.open
    requires t.rooms == if room.Some? then RemoveMember(s.rooms, room.value, v) else s.rooms
    ensures Gone(t, u)
  {
  }

  /** A second close for the same connection changes nothing and sends
      nothing: the registry lookup fails. */
  lemma CloseTwiceIsNoop(s: State, id: ClientId)
    ensures Close(Close(s, id), id) == Close(s, id)
  {
  }

  // ---------------------------------------------------------------------------
  // The heartbeat sweep

  /** The sweep deletes exactly the registry entries whose last heartbeat is
      more than 30000 ms old and closes their sockets; it changes no member
      set, audio group, video source or history and sends nothing. */
  lemma SweepEvictsOnlyRegistry(s: State, now: int)
    ensures var t := Sweep(s, now);
      && (forall u :: u in t.clients <==> u in s.clients && now - s.clients[u].lastHeartbeat <= HeartbeatTimeout)
      && (forall u :: u in t.clients ==> t.clients[u] == s.clients[u])
      && (forall u :: u in t.open <==> u in s.open && u !in Evicted(s, now))
      && t.rooms == s.rooms && t.audio == s.audio && t.video == s.video && t.history == s.history
      && t.outbox == s.outbox
  {
  }

  lemma SweepPreservesInv(s: State, now: int)
    requires Inv(s)
    ensures Inv(Sweep(s, now))
  {
    var t := Sweep(s, now);
    assert MembersAgree(t);
  }

  /** The sweep skips the cleanup of the close handler: an evicted member
      stays in its room's member set and audio group, and the close event
      that follows the termination of its socket is a no-op. */
  lemma SweepLeavesStaleMembership(s: State, id: ClientId, now: int)
    requires Inv(s) && id in s.clients && Stale(s.clients[id], now)
    requires s.clients[id].currentRoom.Some? && s.clients[id].currentRoom.value in s.rooms
    ensures var t := Close(Sweep(s, now), id);
      var r := s.clients[id].currentRoom.value;
      && id !in t.clients
      && id in t.rooms[r].users && r in t.audio && id in t.audio[r]
      && t.rooms == s.rooms && t.audio == s.audio && t.video == s.video
      && t.outbox == s.outbox
  {
    var t := Sweep(s, now);
    assert id !in t.clients;
    assert Close(t, id) == t.(open := t.open - {id});
  }

  /** Closing each id of `ids` in turn, as the close handler would. */
  function CloseAll(s: State, ids: seq<ClientId>): State
    decreases |ids|
  {
    if ids == [] then s else CloseAll(Close(s, ids[0]), ids[1..])
  }

  /** The sweep with the close handler's cleanup run for every stale
      connection, in registry order `order`. */
  function SweepWithCleanup(s: State, now: int, order: seq<ClientId>): State
    requires forall u :: u in order <==> u in Evicted(s, now)
  {
    CloseAll(s, order)
  }

  lemma {:induction false} CloseAllCleansUp(s: State, ids: seq<ClientId>)
    requires Inv(s)
    requires forall u :: u in ids ==> u in s.clients || Gone(s, u)
    ensures var t := CloseAll(s, ids);
      && Inv(t)
      && (forall u :: u in ids || Gone(s, u) ==> Gone(t, u))
    decreases |ids|
  {
    if ids != [] {
      var v := ids[0];
      var s1 := Close(s, v);
      if v in s.clients {
        CloseCleansUp(s, v);
        CloseShape(s, v);
      } else {
        assert Gone(s, v);
        CloseKeepsGone(s, v, v);
        assert s1 == s.(open := s.open - {v});
      }
      forall u | Gone(s, u) ensures Gone(s1, u) {
        CloseKeepsGone(s, v, u);
      }
      forall u | u in ids[1..] ensures u in s1.clients || Gone(s1, u) {
        if u != v && u in s.clients {
          assert u in s1.clients;
        }
      }
      CloseAllCleansUp(s1, ids[1..]);
    }
  }

  /** The corrected sweep leaves no evicted connection in the registry, in
      any member set or in any audio group, and keeps the invariants. */
  lemma SweepWithCleanupClearsMembership(s: State, now: int, order: seq<ClientId>)
    requires Inv(s)
    requires forall u :: u in order <==> u in Evicted(s, now)
    ensures var t := SweepWithCleanup(s, now, order);
      && Inv(t)
      && (forall u :: u in Evicted(s, now) ==> u !in t.clients && u !in t.open)
      && (forall u, r :: u in Evicted(s, now) && r in t.rooms ==> u !in t.rooms[r].users)
      && (forall u, r :: u in Evicted(s, now) && r in t.audio ==> u !in t.audio[r])
  {
    CloseAllCleansUp(s, order);
  }
}
