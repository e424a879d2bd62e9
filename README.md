# LAN Party, modelled in Dafny

LAN Party is a browser-based virtual hangout. Players walk a 2-D map of rooms
joined by doorways. They chat per room, talk by voice with the other members
of their room, and share a video screen in the cinema. A Node.js WebSocket
server relays every event between the clients.

This project models the core of that system and proves properties of the
model:

- **The session relay of the server** (`server/index.js`), in three modules:
  - `RelaySpec` (`relay_spec.dfy`) is a pure state machine. Its state holds:
    - the connection registry, and the rooms with their member sets;
    - the bounded per-room chat history, the audio groups and the video sources;
    - the set of open sockets, and every message written so far (the outbox).
    Each event is a function from state to state.
  - `RelayProps` (`relay_props.dfy`) proves the invariants every event keeps and what room changes, chat, video, audio and connection close do.
  - `RelayServer` (`relay_server.dfy`) is the same server as a class whose fields are those maps. Its methods update the fields in place, with `while` loops where the source loops over members. Every method is proved to produce exactly the state the pure machine gives.
- **The game client** (`public/game.js`, non-rendering parts):
  - `GameValues`: colour parsing, the 32-bit string hash and the sprite palette it indexes.
  - `GameRooms`: room and doorway lookup, the walkable area, doorway trigger zones and arrival positions.
  - `GameClient`: the `Game` object. It has the cinema seat table (an array updated in place), the players map, the current room and room transitions, the video-source flags and the peanut nod counter.
    Each method of `Game` names in its `modifies` clause the fields it may change (``this`players``, ``this`sent``, …). Every field it does not name keeps its value, and callers know this.
  - `PeanutWire`: the `peanutAnimation` event as it travels from client to server to client.
- **The audio worklets**:
  - `Playback` (`public/audio-playback-worklet.js`) is a FIFO of sample buffers drained one sample per output slot.
  - `Capture` (`public/audio-worklet.js`) is a 4096-sample accumulate-and-flush chunker with a mute flag.
- **The sprite-row repair script** (`fix_corrupted_rows.js`): `RowFix` pads or cuts every pixel row to 59 cells, in place.

Shared types are in `common.dfy`:

- `Option`;
- a first-match search that stands for JavaScript's `Array.prototype.find`;
- the room configuration records.

## Model

| member | source | states |
|---|---|---|
| RelaySpec.AudioGroups | server/index.js:90-96 | the audio groups the member sets determine: a group exists exactly for each room with members and holds exactly those members |
| RelaySpec.ConfigMapKeys | server/index.js:25-31 | the rooms loaded at start-up are exactly the ids the configuration names |
| RelaySpec.ConfigMapLast | server/index.js:25-31 | a room is configured by the last configuration entry carrying its id |
| RelaySpec.Init | server/index.js:19-31 | the start-up state keeps the invariants, has no clients and no output, and gives every configured room an empty member set and an empty history |
| RelaySpec.RoomRecipients | server/index.js:37-47 | `broadcastToRoom` reaches exactly the room's members that are registered, have an open socket and are not the excluded connection |
| RelaySpec.AllRecipients | server/index.js:49-55 | `broadcastToAll` reaches exactly the registered connections with an open socket, minus the excluded one |
| RelaySpec.AudioRecipients | server/index.js:327-345 | audio data reaches exactly the open members of the sender's room audio group other than the sender |
| RelaySpec.ToRoom | server/index.js:37-47 | a room broadcast only appends to the outbox and changes no other state |
| RelaySpec.ToAll | server/index.js:49-55 | a broadcast to all only appends to the outbox and changes no other state |
| RelaySpec.Roster | server/index.js:124-127 | the roster sent on room entry lists exactly the room's members that still have a registry entry, with their name and colour |
| RelaySpec.RemoveMember | server/index.js:67 | removing a member touches only that room's member set, and only that id |
| RelaySpec.AddMember | server/index.js:105 | adding a member touches only that room's member set, and only that id |
| RelaySpec.LeaveAudio | server/index.js:90-96 | leaving removes the id from the room's audio group, deletes the group once it is empty, and leaves other groups alone |
| RelaySpec.JoinAudio | server/index.js:137-140 | joining creates the room's audio group if needed, adds the id, and leaves other groups alone |
| RelaySpec.AppendBounded | server/index.js:288-292 | a chat line is appended at the end; a history at capacity drops its oldest line, so the length never exceeds 100 |
| RelaySpec.Truncate | server/index.js:284 | chat text is cut to a prefix of at most 500 characters |
| RelaySpec.LeaveRoom | server/index.js:64-98 | leaving a room changes only member sets, audio groups and the outbox |
| RelaySpec.EnterRoom | server/index.js:100-154 | entering a room changes only member sets, audio groups and the outbox |
| RelaySpec.Welcome | server/index.js:102-135 | entering a configured room adds the id to its member set, keeps every registry entry, socket, history and video source, and ends with a batch to the mover alone naming the room and carrying its whole chat history |
| RelaySpec.RoomChange | server/index.js:57-155 | a room change sets the connection's current room and leaves every other registry entry, the sockets, the histories, the video sources and the room configuration unchanged |
| RelaySpec.MovedFrame | server/index.js:57-155 | a leave, a change of the mover's registry entry and an entry together change only that entry, member sets, audio groups and the outbox, which only grows |
| RelaySpec.ExtendsTrans | server/index.js:37-55 | the outbox only grows: appending after appending is appending |
| RelaySpec.CloseRoom | server/index.js:373-415 | the room cleanup of a closing connection changes no registry entry, socket, history or room configuration, and only appends output |
| RelaySpec.Connect | server/index.js:157-168 | defines the accepted socket: a registry entry with no name, colour or room, the last heartbeat at `now`, and an open socket |
| RelaySpec.OnJoin | server/index.js:178-207 | defines `join`: name, colour and the hub's spawn point stored, `joined` to the sender, `playerConnected` to everybody else |
| RelaySpec.JoinPosition | server/index.js:182-183 | defines the position `join` assigns: the hub's spawn point, or (400, 300) when there is no hub |
| RelaySpec.OnPositionUpdate | server/index.js:209-227 | defines `positionUpdate`: the position stored, the room change to `room` or the hub, then `playerMoved` to everybody else |
| RelaySpec.TargetRoom | server/index.js:212 | defines the room a position update names, `message.room || 'hub'` |
| RelaySpec.OnVideoState | server/index.js:229-246 | a `videoState` event changes only the video sources and the outbox |
| RelaySpec.NextVideo | server/index.js:231-237 | defines the video-source record after `videoState`: playing makes the sender the room's source; stopping removes the entry only when the sender is the source |
| RelaySpec.OnChat | server/index.js:277-295 | defines `chat`: dropped without a room, a name or text; otherwise the truncated line is stored and sent to the room |
| RelaySpec.OnAudioData | server/index.js:327-345 | an `audioData` event only appends output |
| RelaySpec.Receive | server/index.js:170-368 | defines the message handler: an unregistered id changes nothing, and each event type goes to its handler |
| RelaySpec.Close | server/index.js:370-423 | defines the close handler: the socket leaves OPEN, then a registered connection's room cleanup, `playerDisconnected` to everybody, and the registry entry deleted |
| RelaySpec.Sweep | server/index.js:430-439 | defines the sweep as written: every stale connection's socket closed and registry entry deleted, and nothing else |
| RelaySpec.Touch | server/index.js:318-325 | defines the heartbeat update shared by `heartbeat` and `ping`: the connection's last-heartbeat time becomes `now` |
| RelaySpec.Stale | server/index.js:433-434 | defines a stale connection: more than 30000 ms since its last heartbeat |
| RelaySpec.Evicted | server/index.js:432-436 | defines the connections the sweep evicts: the registered ones that are stale |
| RelaySpec.SocketNotOpen | server/index.js:37-55 | defines the transport taking a socket out of OPEN, after which no broadcast writes to it |
| RelayProps.LeaveAudioMirrors | server/index.js:90-96 | removing a member from its audio group mirrors removing it from the member set |
| RelayProps.JoinAudioMirrors | server/index.js:137-140 | adding a member to the audio group mirrors adding it to the member set |
| RelayProps.LeaveRoomShape | server/index.js:64-98 | leaving a room takes the id out of that room's member set and leaves the audio groups mirroring the member sets |
| RelayProps.ToRoomAnnounces | server/index.js:37-47 | a room broadcast appends one batch, addressed to the room's open registered members, and nothing when there are none |
| RelayProps.AnnounceAppend | server/index.js:37-47 | announcing two runs of messages to one set is announcing them one after the other |
| RelayProps.SameRecipients | server/index.js:37-47 | who a room broadcast reaches, and the roster sent with it, depend only on the registry, the member sets and the sockets |
| RelayProps.LeaveRoomSends | server/index.js:64-98 | leaving a configured room sends exactly `userLeft`, the system "left" line and `audioRoomLeave`, in that order, each to the remaining members that are registered and open; leaving an unknown room changes nothing |
| RelayProps.EnterRoomShape | server/index.js:100-154 | entering a room puts the id in that room's member set and leaves the audio groups mirroring the member sets |
| RelayProps.EnterRoomSends | server/index.js:100-154 | entering a configured room sends exactly `userJoined` and the system "joined" line to the room's open registered members, the mover included; then `roomChanged` to the mover alone with the room's name, the roster of registered members and the whole chat history; then `audioRoomJoin` with the same roster to the room; entering an unknown room changes nothing |
| RelayProps.WelcomeSends | server/index.js:102-135 | the first part of an entry sends `userJoined` and the system "joined" line to the room's open registered members, then `roomChanged` to the mover alone with the room's name, roster and history |
| RelayProps.RoomChangeShape | server/index.js:57-155 | a real room change is a leave of the old room followed by an entry into the new one |
| RelayProps.RoomChangeSameRoomIsNoop | server/index.js:60-62 | changing to the room one is already in changes nothing and sends nothing |
| RelayProps.RoomChangeMoves | server/index.js:57-155 | after a room change the connection is a member of the new room only, nobody else's membership changes, and the audio groups still mirror the member sets |
| RelayProps.RoomChangePreservesInv | server/index.js:57-155 | a room change keeps bounded histories, exclusive membership, registry/member agreement, mirrored audio groups and open sockets registered |
| RelayProps.MovedKeepsExclusive | server/index.js:57-155 | when only the mover's membership changes and it ends in exactly one room, membership stays exclusive |
| RelayProps.MovedKeepsAgree | server/index.js:57-155 | when the mover's registry entry names the room it is now a member of, and nobody else changes, registry and member sets still agree |
| RelayProps.RoomEntryDeliversHistory | server/index.js:124-135 | a room change into a configured room sends the mover, and only the mover, the room name, the roster of the new room's registered members (the mover included) and the room's whole chat history |
| RelayProps.DepartedEntry | server/index.js:57-155 | a room change is the entry into the new room from the state the leave left, with the mover's current room updated |
| RelayProps.DepartedFacts | server/index.js:64-98 | the leave before an entry keeps the new room, its history, the registered ids and their names and colours, and only appends output |
| RelayProps.SameRoster | server/index.js:124-127 | the roster depends only on the room's member set and the registered names and colours |
| RelayProps.EnterRoomDeliversHistory | server/index.js:124-135 | an entry into a configured room contains a batch to the mover alone with the room's name, the roster of its registered members with the mover added, and its chat history as it was before the entry |
| RelayProps.RoomChangeKeepsVideoSource | server/index.js:57-155 | a room change never clears a video source: the room that was left still names the mover as its source |
| RelayProps.AppendAllKeepsNewest | server/index.js:288-292 | chat history is a FIFO of capacity 100: after any run of chat lines it holds exactly the newest 100 lines, in order |
| RelayProps.ChatSemantics | server/index.js:277-295 | a chat line is dropped unless the sender has a room, a name and text; otherwise it is stored, truncated to 500, and sent to the whole room, the sender included |
| RelayProps.VideoStateSemantics | server/index.js:229-246 | playing makes the sender the room's source; stopping clears the source only if it is the sender; the event is relayed to the room with the new source; without a room nothing happens |
| RelayProps.AudioIsolation | server/index.js:327-345 | audio data from a connection reaches only open members of the sender's own room, never the sender and never another room |
| RelayProps.JoinIsNotGuarded | server/index.js:178-207 | a second `join` overwrites name and colour again, and leaves room and membership as they were |
| RelayProps.PositionUpdatePreservesInv | server/index.js:209-227 | a position update keeps the invariants |
| RelayProps.ChatPreservesInv | server/index.js:277-295 | a chat event keeps the invariants, in particular the history bound |
| RelayProps.JoinPreservesInv | server/index.js:178-207 | a join keeps the invariants |
| RelayProps.TouchPreservesInv | server/index.js:318-326 | a heartbeat or ping keeps the invariants |
| RelayProps.ReceivePreservesInv | server/index.js:170-368 | every inbound event keeps the invariants, malformed frames and unknown types included |
| RelayProps.RelayPreservesInv | server/index.js:247-276 | an event that is only passed on to the sender's room, or ignored, keeps the invariants |
| RelayProps.OutputOnlyPreservesInv | server/index.js:37-55 | a step that only writes messages keeps the invariants |
| RelayProps.HistoryUpdatePreservesInv | server/index.js:288-292 | storing a history within capacity for a configured room keeps the invariants |
| RelayProps.ConnectPreservesInv | server/index.js:157-168 | accepting a socket under a never-used id keeps the invariants |
| RelayProps.CloseRoomShape | server/index.js:373-415 | the close cleanup takes the id out of its room's member set, keeps the audio groups mirroring the member sets, and clears the room's video source when it names the id |
| RelayProps.CloseRoomSends | server/index.js:373-415 | the close cleanup of a configured room sends exactly a video stop (only when the id was the room's source), `userLeft`, a free-seat `seatState` and `audioRoomLeave`, in that order, each to the remaining registered open members; an unknown room changes nothing |
| RelayProps.CloseRoomOutbox | server/index.js:373-415 | the batches the close cleanup of a configured room appends, in order: the optional video stop, `userLeft`, the free-seat `seatState` and `audioRoomLeave` |
| RelayProps.StopVideoSends | server/index.js:378-386 | the stop step sends one video stop to the room when the connection is its source and nothing otherwise, and keeps the registry, member sets and sockets |
| RelayProps.CloseRoomUnfold | server/index.js:373-415 | the close cleanup of a configured room is the stop step followed by the `userLeft`, `seatState` and `audioRoomLeave` broadcasts |
| RelayProps.ToRoomThrice | server/index.js:37-47 | three room broadcasts in a row append the three messages, in order, to the recipients of the first |
| RelayProps.CloseShape | server/index.js:370-423 | closing a registered connection deletes its registry entry and socket, takes it out of its room's member set, keeps the histories, keeps the audio groups mirroring the member sets, and clears its room's video source when it names it |
| RelayProps.CloseSends | server/index.js:370-423 | closing a registered connection sends what its room cleanup sends, then one `playerDisconnected` to every other registered open connection |
| RelayProps.CloseKeepsInv | server/index.js:370-423 | the close handler keeps the invariants |
| RelayProps.RemovalKeepsInv | server/index.js:370-423 | any state with the registry entry and socket gone, the id out of its room and the audio groups mirroring the member sets keeps the invariants |
| RelayProps.RemovalKeepsExclusive | server/index.js:373-415 | taking one id out of every member set keeps membership exclusive |
| RelayProps.RemovalKeepsAgree | server/index.js:370-415 | deleting a registry entry and its membership keeps registry and member sets in agreement |
| RelayProps.CloseCleansUp | server/index.js:370-423 | after close the connection is in no registry, socket set, member set or audio group, is no longer the video source of the room it was in, other members are unchanged, and the invariants hold |
| RelayProps.CloseRemovesMember | server/index.js:373-415 | after close the connection is gone from registry, sockets, member sets and audio groups, and every other membership is as before |
| RelayProps.CloseDropsVideo | server/index.js:378-386 | after close the connection is no longer the video source of the room it was in |
| RelayProps.MovedSourceOutlivesClose | server/index.js:378-386 | a video source that changed rooms and then closed is gone, yet the room it streamed in still names it as its source |
| RelayProps.CloseReleasingVideoCleansUp | server/index.js:370-423 | the close with every source naming the connection dropped leaves it gone, named by no video source, every other source kept, and the invariants holding |
| RelayProps.CloseKeepsOtherSources | server/index.js:378-386 | the close handler clears no video source that names another connection |
| RelayProps.CloseKeepsGone | server/index.js:370-423 | closing any connection never brings back one that is gone |
| RelayProps.GoneAfterRemoval | server/index.js:373-415 | taking a connection out of a member set never puts a gone connection back in |
| RelayProps.CloseTwiceIsNoop | server/index.js:371-372 | a second close for the same connection changes nothing and sends nothing |
| RelayProps.SweepEvictsOnlyRegistry | server/index.js:430-439 | the sweep deletes exactly the registry entries whose heartbeat is older than 30000 ms and their sockets, and nothing else |
| RelayProps.SweepPreservesInv | server/index.js:430-439 | the sweep keeps the invariants |
| RelayProps.SweepLeavesStaleMembership | server/index.js:430-439 | as written, an evicted connection stays in its room's member set and audio group, and the later close event does not remove it |
| RelayProps.CloseAllCleansUp | server/index.js:370-423 | closing a list of connections one by one leaves each of them gone and keeps the invariants |
| RelayProps.SweepWithCleanupClearsMembership | server/index.js:430-439 | a sweep that runs the close cleanup for each evicted connection leaves none of them registered, in a member set or in an audio group |
| RelayServer.LoadRooms | server/index.js:25-31 | the start-up loop creates one room with an empty member set and one empty history per configured id |
| RelayServer.Relay.constructor | server/index.js:19-31 | the new server holds exactly the start-up state, and its invariants hold |
| RelayServer.Relay.RoomRecipientSet | server/index.js:37-47 | the loop over a room's members collects exactly the recipients of `broadcastToRoom` |
| RelayServer.Relay.AllRecipientSet | server/index.js:49-55 | the loop over the registry collects exactly the recipients of `broadcastToAll` |
| RelayServer.Relay.AudioRecipientSet | server/index.js:330-341 | the loop over the audio group collects exactly the recipients of audio data |
| RelayServer.Relay.BroadcastToRoom | server/index.js:37-47 | the in-place room broadcast produces the state of the pure room broadcast |
| RelayServer.Relay.Send | server/index.js:44 | one message to a set of recipients appends one batch to the outbox, and nothing to an empty set |
| RelayServer.Relay.BroadcastToAll | server/index.js:49-55 | the in-place broadcast to all produces the state of the pure broadcast |
| RelayServer.Relay.LeaveOldRoom | server/index.js:64-98 | the in-place leave produces the pure leave's state |
| RelayServer.Relay.EnterNewRoom | server/index.js:100-154 | the in-place entry produces the pure entry's state |
| RelayServer.Relay.HandleRoomChange | server/index.js:57-155 | the in-place `handleRoomChange` produces the state of the pure room change |
| RelayServer.Relay.OnConnect | server/index.js:157-168 | accepting a socket registers it with no name, colour or room, and keeps the invariants |
| RelayServer.Relay.OnSocketClosing | server/index.js:37-55 | the socket leaving OPEN is exactly `SocketNotOpen` of the old state, and the invariants hold |
| RelayServer.Relay.OnJoinMessage | server/index.js:178-207 | the in-place `join` case produces the pure join's state |
| RelayServer.Relay.OnPositionMessage | server/index.js:209-227 | the in-place `positionUpdate` case produces the pure update's state |
| RelayServer.Relay.OnVideoMessage | server/index.js:229-246 | the in-place `videoState` case produces the pure video event's state |
| RelayServer.Relay.OnChatMessage | server/index.js:277-295 | the in-place `chatMessage` case produces the pure chat event's state |
| RelayServer.Relay.RelayToOwnRoom | server/index.js:247-276 | relaying to the sender's room sends to that room when the sender has one, and does nothing otherwise |
| RelayServer.Relay.OnAudioMessage | server/index.js:327-345 | the in-place `audioData` case produces the pure audio event's state |
| RelayServer.Relay.OnMessage | server/index.js:170-368 | the message handler produces the pure machine's state for every event and keeps the invariants |
| RelayServer.Relay.Dispatch | server/index.js:177-363 | the `switch` on the event type produces the pure machine's state for every event of a registered connection |
| RelayServer.Relay.OnHeartbeat | server/index.js:318-326 | the heartbeat update shared by `heartbeat` and `ping`: it records the time of the last heartbeat and changes nothing else; the `pong` reply to `ping` is sent by `Dispatch` |
| RelayServer.Relay.OnRelayMessage | server/index.js:247-276 | the cases that only relay to the sender's room, or ignore the event, produce the pure machine's state |
| RelayServer.Relay.CloseCurrentRoom | server/index.js:373-415 | the in-place room cleanup on close produces the pure cleanup's state |
| RelayServer.Relay.OnClose | server/index.js:370-423 | the close handler produces the pure close's state and keeps the invariants |
| RelayServer.Relay.SweepStale | server/index.js:430-439 | the sweep loop produces the pure sweep's state and keeps the invariants |
| GameValues.ToInt32 | public/game.js:3577-3578 | `hash & hash` gives a signed 32-bit value and is the identity on such values |
| GameValues.HashCode | public/game.js:3573-3581 | `hashCode` is a signed 32-bit value, and 0 for the empty string |
| GameValues.HashStepIsPolynomial | public/game.js:3576-3578 | one step of the loop is `31 * h + c` wrapped to 32 bits |
| GameValues.HashCodeIsPolynomial | public/game.js:3573-3581 | `hashCode(s)` is the polynomial hash of `s` in base 31, reduced to signed 32 bits once at the end |
| GameValues.PaletteIndex | public/game.js:135-137 | `Math.abs(v) % len` is a valid index |
| GameValues.ShiftRight | public/game.js:136-137 | `h >> k` is the floor of `h / 2^k` and stays a signed 32-bit value |
| GameValues.OutfitFor | public/game.js:128-137 | a skin-tone colour is the skin itself; otherwise skin, pants and shoes each come from their eight-colour palette |
| GameValues.OutfitPaletteBits | public/game.js:133-137 | the skin (for a colour that is not a skin tone), pants and shoes are picked by the hash, the hash shifted right by 8 and by 16, by absolute value modulo 8; for a non-negative hash these are bits 0-2, 8-10 and 16-18 |
| GameValues.HexToRgb | public/game.js:3564-3571 | every component is a byte, and anything that is not `#?RRGGBB` gives the fallback (78, 205, 196) |
| GameValues.HexToRgbRoundTrip | public/game.js:3564-3571 | parsing a colour formatted as six hex digits, with or without `#` and in either case, gives back the colour |
| GameValues.HexToRgbInjective | public/game.js:3564-3571 | two hex colours that parse alike have the same digits up to case |
| GameRooms.FindRoom | public/game.js:1692 | the room found has the id asked for; when none is found, no room has that id |
| GameRooms.InitialRoom | public/game.js:1678-1689 | `setRooms` selects the hub when present, else the first room; nothing only for an empty list |
| GameRooms.FindDoorway | public/game.js:1996-2000 | the doorway found leads to the target; when none is found, no listed doorway does |
| GameRooms.FindHubDoorwayFromRoom | public/game.js:2002-2009 | the doorway found is one of the hub's doorways and leads to the room asked for |
| GameRooms.IsValidPosition | public/game.js:1895-1905 | a position is valid exactly when it is at least 20 inside every edge of the map; any position is valid before the map is known |
| GameRooms.FirstDoorway | public/game.js:1907-1931 | the doorway taken is the first of the room's doorways whose trigger zone holds the player; when none is taken, no zone holds the player |
| GameRooms.InDoorway | public/game.js:1916-1924 | defines the trigger zone: within 30 of the doorway's wall and within half its width of its centre; any other direction never triggers |
| GameRooms.DoorwaySpawn | public/game.js:1964-1980 | arrival beside a doorway is 80 inside the edge on the doorway's side, else at the doorway's coordinates with the `x \|\| 400`, `y \|\| 300` fallbacks |
| GameRooms.ArrivalDoorway | public/game.js:1944-1983 | defines the arrival doorway: the hub's doorway to the room left when entering the hub, else the target room's doorway to itself |
| GameRooms.Arrival | public/game.js:1933-1988 | the arrival position is beside the arrival doorway when there is one, else the target's spawn point |
| GameRooms.HubArrivalBesideDoorway | public/game.js:1943-1959 | entering the hub puts the player beside the hub's doorway to the room that was left |
| GameRooms.OtherArrivalUsesSpawnPoint | public/game.js:1963-1983 | entering any other room uses its spawn point, because the doorway lookup searches the target room for a doorway to itself |
| GameRooms.ArrivalDoesNotRetrigger | public/game.js:1907-1931 | on a map larger than 110 a player placed beside a doorway is outside every trigger zone on the same axis, so arriving does not bounce back |
| GameRooms.DoorwaySpawnIsValid | public/game.js:1895-1905 | on a map at least 160 across, a doorway inside the walkable area gives a walkable arrival position |
| GameClient.ReleaseAll | public/game.js:1510-1515 | the release loop frees exactly the seats the user held and leaves every other seat as it was |
| GameClient.RemoteSeats | public/game.js:1509-1520 | defines the seat table after a remote seat update: every seat of the user released, then the named seat claimed when it exists |
| GameClient.RemoteSeatsExclusive | public/game.js:1509-1530 | after a remote seat update the user holds exactly the named seat when it exists and no seat otherwise; seats neither held by the user nor named are unchanged |
| GameClient.FreeSeatInReach | public/game.js:1483-1495 | the seat taken is free and within 50 px, and no earlier seat is both |
| GameClient.NewPlayer | public/game.js:1722-1738 | a new player stands at its target with the given room, and takes colour `#4ECDC4` and name `Player` when the update has none |
| GameClient.UpdatedPlayer | public/game.js:1709-1719 | a known player gets a new target, room and time; colour and name change only when truthy, `peanutNodding` and `peanutShockMouth` only when present; its position, id, direction, nod frame and shock and mouth timers stay |
| GameClient.InitializedEntries | public/game.js:1784-1802 | `initializePlayers` keeps unlisted players and the local player, and replaces every other listed player by a fresh record at (400, 300) in the current room |
| GameClient.InitializedKeys | public/game.js:1784-1802 | after `initializePlayers` the map holds exactly the old players and the listed ids other than the local one |
| GameClient.InitializedKeeps | public/game.js:1784-1802 | a player that is local or not listed keeps its record |
| GameClient.InitializedFromRoster | public/game.js:1784-1802 | every other listed player has a fresh record built from a roster entry with its id |
| GameClient.NodRuns | public/game.js:2045-2060 | a nod keeps running, one frame per tick, while the counter stays below 50 |
| GameClient.NodTick | public/game.js:2045-2051 | defines one frame of a nod counter: count up while nodding, and stop and reset at 50 frames |
| GameClient.NodLasts | public/game.js:2045-2060 | a nod lasts exactly 50 frames, then stops with the counter back at 0 |
| GameClient.TickedPlayers | public/game.js:2045-2051 | one frame advances every remote player's nod counter and leaves the local entry alone |
| GameClient.TickAll | public/game.js:2045-2051 | the loop over the players map advances every remote nod by one frame and leaves the local entry alone |
| GameClient.PeanutAnimated | public/game.js:1436-1449 | `nod` starts a nod at frame 0; `shock` opens the mouth for 2000 ms; `mouthOpen` opens it for 1000 ms; any other type changes nothing |
| GameClient.TransitionedFacts | public/game.js:1933-1994 | a transition to an unknown room changes nothing; otherwise the target is current, nobody is seated, the local player stands at the arrival position in the new room, and other players are unchanged |
| GameClient.Game.constructor | public/game.js:5-87 | a new game has the eight free cinema seats, no rooms, no players, no seat and no nod |
| GameClient.Game.SetMap | public/game.js:1672-1676 | `setMap` stores the map and changes no other field; the canvas resize is rendering and is not modelled |
| GameClient.Game.SetRooms | public/game.js:1678-1689 | `setRooms` stores the list and makes the hub, else the first room, current, and changes no other field; it throws exactly when the list is empty, because there is then no current room to read |
| GameClient.Game.SetCurrentRoom | public/game.js:1691-1697 | the current room changes only to a known room with the id asked for, and no other field changes |
| GameClient.Game.SetLocalPlayer | public/game.js:1699-1705 | the local player enters the players map under its id, in the current room; only the players map and the local id change |
| GameClient.Game.UpdatePlayer | public/game.js:1707-1739 | `updatePlayer` updates a known player and creates an unknown one; no field but the players map changes |
| GameClient.Game.RemovePlayer | public/game.js:1780-1782 | the player is gone from the map, and no field but the players map changes |
| GameClient.Game.InitializePlayers | public/game.js:1784-1802 | the roster loop leaves the players map that `Initialized` describes, and no other field changes |
| GameClient.Initialized | public/game.js:1784-1802 | defines the players map after the roster loop: each listed id but the local one written in order |
| GameClient.Game.SendSeatState | public/game.js:1499-1507 | `sendSeatState` writes one `seatState` message when the socket is open and nothing otherwise; no other field changes |
| GameClient.Game.HandleRemoteSeatState | public/game.js:1509-1530 | the seat table becomes the remote-update table, and a known user is moved onto the seat, seated; only the seats and the players map change |
| GameClient.Game.HandleSeatInteraction | public/game.js:1471-1497 | outside the cinema nothing happens; a seated player stands up (that seat's `occupied` cleared) and sends a null seat; otherwise the player sits on the first free seat in reach, faces up and sends its index; only the seats, the players map, the seat held and the sent messages change |
| GameClient.Game.TransitionToRoom | public/game.js:1933-1994 | the transition leaves exactly the view `Transitioned` describes; only the current room, the seat held, the transition flag and the players map change |
| GameClient.Transitioned | public/game.js:1933-1994 | defines the view after a transition: unchanged for an unknown room, else the target current, no seat, the flag up and the local player at the arrival point |
| GameClient.Game.CheckRoomTransition | public/game.js:1907-1931 | the player walks through the first doorway whose zone holds it, and nothing changes when there is none; only the fields of the view can change |
| GameClient.Game.MoveLocal | public/game.js:1805-1859 | the local player moves only to a valid position, not while seated or in transition, and may then walk through a doorway of the current room; with no current room only the position changes, and only the fields of the view can change |
| GameClient.Game.SetVideoSource | public/game.js:1567-1578 | the flag takes the new role, and any change of role forgets the received frame; no other field changes and the object stays valid |
| GameClient.Game.ReceiveVideoFrame | public/game.js:1621-1627 | receiving a frame records that one was received; no other field changes and the object stays valid |
| GameClient.Game.UpdateVideoState | public/game.js:1741-1774 | the screen follows the event, and this client is the source exactly when the event names the local player; only the four video fields change and the object stays valid |
| GameClient.Game.TriggerPeanutNod | public/game.js:1403-1409 | a local peanut player that is not nodding starts a nod at frame 0 and sends `nod`; otherwise nothing changes; only the nod fields and the sent messages can change |
| GameClient.Game.HandlePeanutAnimation | public/game.js:1436-1449 | only a known peanut player reacts to an animation event, as `PeanutAnimationEffect` says; no field but the players map changes |
| GameClient.PeanutAnimationEffect | public/game.js:1436-1449 | a known player dressed as the peanut gets the animation; an absent id, an unknown player or any other colour leaves the players map unchanged |
| GameClient.Game.TickNods | public/game.js:2045-2060 | one frame advances every remote nod counter and the local one; only the players map and the local nod fields change |
| GameClient.Game.TickRemoteNods | public/game.js:2045-2051 | the remote players' nod counters advance as `TickedPlayers` says; no field but the players map changes |
| PeanutWire.SentAnimation | public/game.js:1427-1434 | the client sends the animation under `animation`, with no `animationType` |
| PeanutWire.RelayedAsWritten | server/index.js:355-362 | the server relays the sender as `from` and copies only `animationType` |
| PeanutWire.RemoteAnimationIsLost | server/index.js:355-362 | as written, no animation a client sends has any effect on another client |
| PeanutWire.Relayed | public/app.js:208-210 | the corrected relay carries the sender as `userId` and the animation as `animation`, the names the receiver reads |
| PeanutWire.RemoteNodArrives | public/app.js:208-210 | with the corrected relay a peanut's nod starts that player's nod on the receiver at frame 0, and no other player changes |
| Playback.ToInt16Array | public/audio-playback-worklet.js:11 | `new Int16Array(data)` keeps the length and wraps each value into the signed 16-bit range |
| Playback.AddAudioData | public/audio-playback-worklet.js:10-11 | `addAudioData` appends the converted buffer at the tail of the queue and touches nothing else |
| Playback.Clear | public/audio-playback-worklet.js:12-16 | `clear` leaves nothing to play |
| Playback.AddAudioDataAppends | public/audio-playback-worklet.js:10-11 | added samples are played after everything already pending |
| Playback.Enqueued | public/audio-playback-worklet.js:10-11 | a non-empty buffer queued at the tail extends the pending samples by exactly its samples |
| Playback.Step | public/audio-playback-worklet.js:26-39 | defines one output slot: the next sample of the current buffer, else the first sample of the next queued buffer (NaN when that buffer is empty), else 0 |
| Playback.Drain | public/audio-playback-worklet.js:26-39 | `n` slots of `process` hold exactly `n` values |
| Playback.StepPlaysNext | public/audio-playback-worklet.js:26-39 | a slot plays the next pending sample, switching buffers within the same slot; with nothing pending it is 0 and nothing changes; the position stays within the buffer |
| Playback.DrainPlaysInOrder | public/audio-playback-worklet.js:26-40 | samples come out in queue order, each exactly once, then silence; the state afterwards holds exactly the unplayed samples |
| Playback.DrainNothing | public/audio-playback-worklet.js:26-40 | no slot plays nothing and leaves the state as it was |
| Playback.DrainStep | public/audio-playback-worklet.js:26-40 | one more slot keeps the description of the drain true: the next pending sample, or silence once nothing is pending |
| Playback.DrainPlaysOne | public/audio-playback-worklet.js:26-39 | while samples are pending, one more slot plays exactly the next one and leaves the rest pending |
| Playback.DrainPlaysZero | public/audio-playback-worklet.js:26-40 | once nothing is pending, every further slot plays silence |
| Playback.EmptyBufferPlaysNaN | public/audio-playback-worklet.js:34-36 | a buffer with no samples taken from the queue plays NaN |
| Playback.PlaybackProcessor.OnAddAudioData | public/audio-playback-worklet.js:10-11 | the message handler appends to the queue as `AddAudioData` says |
| Playback.PlaybackProcessor.OnClear | public/audio-playback-worklet.js:12-16 | the message handler clears the queue, the current buffer and the position |
| Playback.PlaybackProcessor.Process | public/audio-playback-worklet.js:20-44 | `process` fills the first output channel slot by slot as `Drain` says and returns true |
| Capture.Clamp | public/audio-worklet.js:31 | the clamp is within the 16-bit range and the identity inside it |
| Capture.ClampAll | public/audio-worklet.js:29-32 | the conversion loop clamps every sample and keeps the length |
| Capture.Chunks | public/audio-worklet.js:25-40 | defines the chunks a sample stream is posted as: consecutive full 4096-sample buffers, clamped, with an incomplete tail not posted |
| Capture.ChunksShape | public/audio-worklet.js:28-37 | every posted chunk has exactly 4096 values, each within the 16-bit range, one per full buffer |
| Capture.ChunksAppend | public/audio-worklet.js:28-39 | a full buffer after complete chunks posts exactly one more chunk, its clamped copy |
| Capture.ChunksIgnoreTail | public/audio-worklet.js:26-28 | an incomplete buffer is not posted |
| Capture.CaptureProcessor.SetMuted | public/audio-worklet.js:7-11 | `setMuted` sets the flag and touches nothing else |
| Capture.CaptureProcessor.Take | public/audio-worklet.js:25-40 | one sample is buffered, the full buffer is posted and the index reset; the posted chunks stay those of everything heard |
| Capture.CaptureProcessor.Flush | public/audio-worklet.js:28-39 | a full buffer posts exactly its clamped copy and nothing else changes |
| Capture.CaptureProcessor.Process | public/audio-worklet.js:14-50 | unmuted, output copies input and the posted chunks are the clamped 4096-blocks of every sample heard, with the index below 4096; muted, output is silence and nothing else changes; returns true |
| Capture.CaptureProcessor.PassThrough | public/audio-worklet.js:22-41 | unmuted, each input sample is copied to the output and buffered, and the posted chunks are the clamped 4096-blocks of everything heard |
| Capture.CaptureProcessor.Silence | public/audio-worklet.js:42-46 | muted, every output slot is 0 |
| RowFix.Fixed | fix_corrupted_rows.js:8-19 | defines the fixed row: padded with `#191929` to `n` cells, or cut to `n`, or kept |
| RowFix.FixedShape | fix_corrupted_rows.js:8-19 | a fixed row has the target length; a short row keeps its cells as a prefix padded only with `#191929`; a long row keeps its first cells |
| RowFix.FixedIdempotent | fix_corrupted_rows.js:8-19 | a row of the right length is unchanged, so fixing twice is fixing once |
| RowFix.FixRow | fix_corrupted_rows.js:8-19 | `fixRow` changes the row in place to its fixed form and returns the same row |
| RowFix.FixDirection | fix_corrupted_rows.js:26-31 | every row of a direction becomes its fixed form, also when a row is listed twice |
| RowFix.FixSprite | fix_corrupted_rows.js:21-32 | after the loop over the four directions every row is its fixed form, 59 cells wide |

## Left out

- Start-up and I/O are not modelled:
  - reading `config.json`, the SSL setup, the static file server and the address printout;
  - JSON parsing. Inbound frames arrive already parsed as events, and a frame that is not JSON is the `Malformed` event.
- Connection ids come from the clock and `Math.random`. The model takes them as parameters that were never used before (`RelaySpec.Fresh`).
- Clocks are parameters (`now`).
- Timers are not modelled as timers:
  - The heartbeat interval is a method the caller invokes.
  - The 200 ms reset of the client's `transitioning` flag is not modelled.
  - The shock and mouth-open timeouts in `interpolate` are not modelled; only their end times are recorded.
- Iteration order of JavaScript `Map`s and `Set`s is not modelled. A broadcast is one batch addressed to a set of connections.
- The system chat line is kept as its subject and a joined/left flag rather than as built text.
- `RelaySpec.Truncate` cuts the chat text by characters; JavaScript's `substring` counts UTF-16 code units.
- Rendering is not modelled:
  - every canvas drawing function and the sprite and texture generators;
  - the float lerp and the mouth toggle in `interpolate`;
  - the video canvas and the media elements.
- `Math.sqrt` distances are the integer test `dx² + dy² < 2500`.
- Positions are integers.
- The movement keys in `update` are not modelled. `GameClient.Game.MoveLocal` takes the new position as given.
- The client's socket is a `socketOpen` parameter. Outgoing client messages are recorded in a list.
- `handleVideoButtonInteraction`, `toggleVideoPlayback`, `resetVideo`, video streaming and the peanut sound are not modelled. They drive media elements.
- `triggerPeanutShock` and `triggerPeanutMouthOpen` are not modelled; they set local timer flags only.
- `public/app.js` is not part of this model beyond the one call site the peanut finding needs, and neither are `public/audio.js`, `public/phase-vocoder-worklet.js`, `fix_sprite_data.js` and `verify_fix.js`.
- Audio samples are integers. The worklets' scaling by 32768 and the float-to-Int16 conversion of captured samples are not modelled.
- GameClient.Game.SetLocalPlayer: requires a current room; the source throws after storing `localPlayer` when there is none.
- GameClient.Game.TransitionToRoom: requires a current room, the map and a local player; the game loop only calls it when all three exist.
- GameClient.Game.CheckRoomTransition: requires the map and a local player, for the same reason.
- GameClient.Game.MoveLocal: requires the map, for the same reason.
- GameClient.Game.SetRooms: reports the throw on an empty list as `threw`; the caller's handler stopping there, so that `setLocalPlayer` never runs, is not modelled.
- GameClient.Game.HandleSeatInteraction: requires a local player when it would look for a seat; the source throws there without one.
- The local player is the players-map entry under the local id. A `playerDisconnected` for the local player's own id, which the server never sends to that player, would in the source leave the separate `localPlayer` object alive.
- Capture.CaptureProcessor.Process: requires input, output and the internal buffer to be distinct arrays, which the audio engine guarantees.
- `isMuted` starts undefined in the source. It is modelled as `false`, which behaves the same.
- Only the `nod` part of the peanut counters in `interpolate` is modelled (`GameClient.Game.TickNods`).

## Findings

| source | as written | input that shows it | evidently intended | confidence | as-written member | corrected member |
|---|---|---|---|---|---|---|
| server/index.js:430-439 | the heartbeat sweep terminates a stale socket and deletes its registry entry. The close handler then finds no entry, so the connection stays in its room's member set and audio group, and the room is never told it left | a member of the hub whose last heartbeat is over 30000 ms old when the sweep runs | an evicted connection is cleaned up as the close handler does: out of its room, its audio group and its video source | not executed | RelayProps.SweepLeavesStaleMembership | RelayProps.SweepWithCleanupClearsMembership |
| server/index.js:355-362 | the server reads the animation from `animationType` and names the sender `from`. The sending client writes `animation` (public/game.js:1427-1434), and the receiving client reads `userId` and `animation` (public/app.js:208-210), so every relayed animation arrives with neither | a peanut player presses the nod key while another player is in the room | the receiving client sees the sender's nod (and shock and mouth-open) | not executed | PeanutWire.RemoteAnimationIsLost | PeanutWire.RemoteNodArrives |
| server/index.js:378-386 | `videoState` records the sender as its room's source, a room change (lines 57-155) never clears it, and the close handler (lines 378-386) clears only the source of the room the connection is in at close | a connection starts its video in the hub, walks to another room, and closes | a closed connection is the video source of no room | not executed | RelayProps.MovedSourceOutlivesClose | RelayProps.CloseReleasingVideoCleansUp |
