# Fury Clash: a verified model of the netplay client, relay and matchmaker

Fury Clash is a 1v1 fighting game: a C client with a deterministic simulation, a rollback engine and a
hand-written WebSocket client, and a TypeScript relay and matchmaker. This project models the parts of it
that carry protocols and invariants and proves what they guarantee. Code that works in place is modelled by
classes and loops, each proved against a function; the properties are then proved of those functions.

- **WebSocket stream layer** (`Bytes`, `WsFrame`, `WsStream`, `WsClient`). The frame encoder and the
  incremental parser undo each other (RFC 6455, sections 5.2 and 5.3), and what the client handles depends
  on the bytes that arrive, not on how `recv` cut them.
- **Messages** (`Protocol`): what one side writes is what the other side reads back.
- **Relay room, room manager, input log** (`RelayRoom`, `RoomManager`, `InputLog`): invariants over every
  interleaving of joins, messages, closed sockets and forfeit timers.
- **A whole networked match** (`Session`, `SessionProof`, `LobbyClient`): two clients and the relay over
  first-in first-out channels that may lose their tails, with one inductive invariant.
- **Matchmaking** (`Pairing`, `Matchmaker`, `QueueRuns`): the greedy scan as a matching, what happens to every
  queued player, and which runs of joins, leaves, expiries and scans keep the queues consistent.
- **Rollback** (`Rollback`, `MainLoop`, `FightRuns`, `LateInputs`): the 128-slot ring, for any simulation state and
  any deterministic tick, and exactly when the main loop's use of it keeps a match right.
- **Simulation** (`Fighters`, `Simulation`, `JumpArc`, `Mirror`, `Reach`, `Round`, `SpecialMoves`), **fixed-step loop**
  (`GameLoop`) and **ratings** (`Elo`).

`dafny verify dfyconfig.toml` checks everything.

## How the model reads the code

- Bytes are integers in [0, 256), with `b & 0x0F`, `b & 0x7F` and `b >> 7` written as remainder and quotient
  and exclusive or defined bit by bit; widths that matter (16-bit fields, the 32-bit signed comparison of the
  frame size, signed frame numbers) are explicit.
- Floats are exact reals. Integer division of scaled damage truncates, as in C.
- JSON bodies of join, waiting, start, end and error messages are kept as their fields or as an opaque body.
- A socket is whether it is open and what was handed to it. The clock, the mask key, the performance
  counter, the results of `select` and `recv`, and the expected score of a match are parameters.
- The relay's forfeit timer (`DisconnectHandler.start`) has no caller in the repository; starting one is a
  step of the environment that can happen at any time.
- `round_start_next` has no caller in the repository either: `simulation_tick` is the only driver of
  `round_tick`, and it never restarts a round.

Where the code and its comments or intentions disagree, the model follows the code, and a member says exactly
how:

- The frame-size test converts the size to a 32-bit int first, so the "absurdly large frame" error needs that
  conversion to wrap; a frame of 65537 up to 2^31 - 1 bytes stays incomplete for ever (`WsFrame.TooLargeExactly`,
  `WsFrame.OversizedFrameNeverRead`).
- The upgrade test accepts "101" anywhere in the response header, not only as the status (`WsStream.Says101`).
- Nothing restarts a round, so the simulation plays one: in every run it stays in round 1, no match is ever
  over, and after at most 5940 ticks the round state is frozen (`Simulation.MatchNeverOver`,
  `Simulation.RoundFrozen`). A caller can end a match if and only if it restarts the round between two ticks
  (`Round.MatchCanEndExactly`); `Round.MatchEnds` is about a caller that always does.
- The main loop saves a frame after simulating it, stores a zero local input, and replays (local, remote) as
  (P1, P2) on both clients, so a rewind to a past frame always simulates a frame too many. Over every run, whatever
  inputs arrive and whenever, it stays at a run of the frames simulated if and only if every tick finds no divergence
  or a harmless one (`FightRuns.MainLoopIsCleanExactly`), and at the run with the inputs both sides gave if and only if
  moreover every prediction is right (`FightRuns.MainLoopIsTrueExactly`). With late inputs only that means never
  rewinding (`LateInputs.LateRunIsCleanExactly`), and from the ring as it is initialized it comes down to the inputs:
  the main loop is right exactly while the opponent presses nothing (`LateInputs.TrueWhileNothingIsPressed`). An input
  for a frame not simulated yet, possible because the two clients' counters start at process launch and are not
  aligned, sends the simulation back by a ring, or to the zeros or the earlier fight that the ring still holds
  (`MainLoop.AheadConfirmForgets`): the ring is initialized once per process, not per fight. End-to-end correctness of
  rollback is therefore not claimed.
- A tick does not store the remote input it predicts, so a late input is compared with what the slot held before that
  tick: a wrong prediction can go unnoticed and a right one can raise a divergence
  (`MainLoop.DetectsMispredictionsExactly`, `MainLoop.MissedMisprediction`, `MainLoop.SwallowedInput`).
- A frame of 2^31 or more on the wire arrives as a negative int; its index stays in the ring only for multiples of
  128 (`Rollback.WireFrameInRingExactly`), and then it clears a pending divergence
  (`Rollback.NegativeConfirmClears`).
- Joining a queue looks only at the metadata, which expires: a player can end up in two regions' sets, and a match
  found from the older one does not take it out of that set (`QueueRuns.JoinKeepsConsistentExactly`,
  `Matchmaker.EveryPlayerAccountedFor`).
- `attach` does not look at the room's state and `createRoom` does not look at the table
  (`RelayRoom.AttachReopensClosedRoom`, `RoomManager.CreateLosesARoomExactly`).
- The charge command ignores the 40 frames its comment asks for (`SpecialMoves.CommandForgets`).
- A prediction repeats the input of one frame earlier only, not the last confirmed one
  (`Rollback.PredictionLooksBackOneFrame`).
- Being hit has no way out of the hit state (`Simulation.HitForever`).
- Facing left flips the near edge of a hitbox but not its width, so it lies behind the attacker
  (`Mirror.ReachExactly`, `Mirror.HitMirrorsExactly`), and knockback is to the left from either side
  (`Mirror.KnockbackMirrorsExactly`); movement does treat left and right alike (`Mirror.TickMirrors`).
- A timeout with equal health is P2's round (`Round.TimeoutExactly`), and a double knock-out is a round for both.
- Equal-K rating changes cancel except when they round a half (`Elo.EqualKSumExactly`).
- The greedy scan is optimal only when reach grows along the queue (`Pairing.GreedyNotAlwaysMaximum`).

## Model

| member | source | states |
|---|---|---|
| Bytes.XorInvolution | fury-clash-client/src/network/net_client.c:188-190 | masking a byte twice with the same key byte gives the byte back |
| WsFrame.WriteHeader | fury-clash-client/src/network/net_client.c:151-174 | the bytes written are the header for the payload length in the shortest of the three encodings, and the rest of the buffer keeps its contents |
| WsFrame.WriteMasked | fury-clash-client/src/network/net_client.c:186-190 | the masked payload lands at its place, every other byte of the buffer is unchanged |
| WsFrame.WriteFrame | fury-clash-client/src/network/net_client.c:151-192 | the buffer is overwritten from the start by exactly the encoded frame, whose length is returned |
| WsFrame.HeaderRoundTrip | fury-clash-client/src/network/net_client.c:156-174 | the header written for n bytes is read back as opcode 2, masked, length n, in all three length encodings |
| WsFrame.ParseUndoesEncode | fury-clash-client/src/network/net_client.c:269-305 | parsing an encoded frame that fits, followed by any bytes, gives opcode 2, the original payload and the exact frame length |
| WsFrame.HeaderStable | fury-clash-client/src/network/net_client.c:271-288 | a header once readable reads the same whatever bytes follow |
| WsFrame.ParseStable | fury-clash-client/src/network/net_client.c:269-305 | a complete frame is the same frame whatever bytes follow it |
| WsFrame.StrictPrefixIncomplete | fury-clash-client/src/network/net_client.c:271-293 | every strict prefix of a frame is reported incomplete |
| WsFrame.TooLargeExactly | fury-clash-client/src/network/net_client.c:292-294 | the too-large error occurs exactly when the size exceeds the buffer and its 32-bit conversion does not exceed what is buffered; every size from 65537 to 2^31 - 1 is reported incomplete instead |
| WsFrame.OversizedFrameNeverRead | fury-clash-client/src/network/net_client.c:292-294 | no part of a frame larger than the buffer that can be buffered is ever taken or refused |
| WsStream.FatalExactly | fury-clash-client/src/network/net_client.c:629-661 | a frame sets the error state exactly when it is a close frame or a server error message |
| WsStream.DrainHandlesMessages | fury-clash-client/src/network/net_client.c:616-662 | the parse loop handles, in order, exactly the frames of the buffered bytes up to the first fatal one |
| WsStream.DrainLeavesPartOfAFrame | fury-clash-client/src/network/net_client.c:616-662 | what a loop without error leaves is a strict prefix of one frame and shorter than the buffer |
| WsStream.DrainAppend | fury-clash-client/src/network/net_client.c:616-662 | draining some bytes and then the rest is draining all of them at once; after an error later bytes change nothing |
| WsStream.HeaderEndStable | fury-clash-client/src/network/net_client.c:577-584 | the end of the response header, once found, does not move, and a later one lies beyond the bytes already searched |
| WsStream.OnBytesAppend | fury-clash-client/src/network/net_client.c:552-662 | one receive call on a prefix of the stream, upgrade included, leaves a client from which the rest of the stream leads to the same state |
| WsStream.PiecesDoNotMatter | fury-clash-client/src/network/net_client.c:552-662 | any cutting of a stream of frames that fit, up to the first error, ends in the same client as the whole stream in one call |
| WsStream.SameStreamSameClient | fury-clash-client/src/network/net_client.c:552-662 | two cuttings of the same bytes handle the same (opcode, payload) pairs in the same order, confirm the same inputs and send the same answers |
| WsStream.HandledIsTheFramesOfTheStream | fury-clash-client/src/network/net_client.c:574-662 | from the upgrade request on, the frames handled are exactly the frames of everything after the blank line |
| WsStream.BufferNeverFull | fury-clash-client/src/network/net_client.c:553-558 | after every call of a stream that fits, as long as no error is set, the buffer is a strict prefix of one frame or header and not full, so the full-buffer reset is unreachable |
| WsClient.Client.ReadHeader | fury-clash-client/src/network/net_client.c:271-290 | the loop over the length bytes reads the big-endian number of the header, and the header is found exactly when all its length bytes have arrived |
| WsClient.Client.ParseFrame | fury-clash-client/src/network/net_client.c:269-305 | incomplete and refused frames leave the buffer untouched; a frame is unmasked in place where it lies and the bytes behind it stay |
| WsClient.Client.Unmask | fury-clash-client/src/network/net_client.c:296-300 | the in-place loop leaves the payload under its key and nothing after it changed |
| WsClient.Client.Slide | fury-clash-client/src/network/net_client.c:656-659 | the bytes after the consumed ones are at the front, in order |
| WsClient.Client.DispatchMessage | fury-clash-client/src/network/net_client.c:308-419 | every message type, short messages included, has exactly the effect of the dispatch function |
| WsClient.Client.ProcessFrames | fury-clash-client/src/network/net_client.c:616-662 | the in-place loop over the buffer ends with the state and the leftover bytes that draining them gives |
| WsClient.Client.FindHeaderEnd | fury-clash-client/src/network/net_client.c:577-584 | the index behind the first blank line, or -1 exactly when there is none |
| WsClient.Client.Has101 | fury-clash-client/src/network/net_client.c:588-592 | true exactly when "101" occurs somewhere in the header |
| WsClient.Client.Receive | fury-clash-client/src/network/net_client.c:523-663 | for every poll and recv outcome: nothing, an error, the upgrade request, a reset of a full buffer, or exactly the processing of the received bytes |
| Protocol.ValidInputExactly | fury-clash-server/src/relay-server/protocol.ts:166-173 | the mask test accepts exactly the inputs without up and down or left and right together |
| Protocol.WriteRelayBatch | fury-clash-server/src/relay-server/protocol.ts:86-100 | the buffer filled entry by entry is the head followed by the encoding of every entry, in order |
| Protocol.InputDecodes | fury-clash-server/src/relay-server/protocol.ts:61-69 | the relay decodes a client's nine bytes to the frame and input that were sent, and the low half of the frame as sequence number |
| Protocol.EntriesDecode | fury-clash-client/src/network/net_client.c:351-366 | the client reads the entry bytes of a batch back as the same entries, frames as signed integers |
| Protocol.BatchDispatches | fury-clash-client/src/network/net_client.c:351-366 | a batch confirms exactly its entries, in order, and changes nothing else |
| Protocol.BatchReadsBackExactly | fury-clash-server/src/relay-server/protocol.ts:86-100 | whatever inputs a batch is written from, the client confirms the first 255 of them in order, so none is lost if and only if there are at most 255 |
| Protocol.InputCrossesTheWire | fury-clash-client/src/network/net_client.c:665-685 | an input sent by one client, decoded and batched by the relay, is confirmed on the other with the same frame and input, for every 32-bit frame |
| Protocol.LoadoutCrossesTheWire | fury-clash-client/src/network/net_client.c:721-727 | a loadout byte reaches the other client unchanged and sets nothing else |
| Protocol.PingIsAnswered | fury-clash-client/src/network/net_client.c:368-379 | a ping is answered once, by a message that carries its timestamp and that the relay decodes as a pong, and changes nothing else |
| InputLog.InputLog.RecordP1 | fury-clash-server/src/relay-server/input-log.ts:17-20 | the log advances by P1's event as specified |
| InputLog.InputLog.RecordP2 | fury-clash-server/src/relay-server/input-log.ts:22-25 | the log advances by P2's event as specified |
| InputLog.InputLog.Upsert | fury-clash-server/src/relay-server/input-log.ts:27-39 | the last entry is edited in place when the frame repeats, keeping the value of a player who sent nothing; otherwise one entry is added that carries it forward |
| InputLog.LogIsRunCompression | fury-clash-server/src/relay-server/input-log.ts:17-39 | after any history: one entry per maximal run of equal-frame events, with both players' latest inputs at the end of that run |
| InputLog.LastEntryIsLatest | fury-clash-server/src/relay-server/input-log.ts:27-39 | the last entry always carries both players' latest inputs |
| InputLog.AdjacentFramesDiffer | fury-clash-server/src/relay-server/input-log.ts:28-38 | neighbouring entries are for different frames |
| RelayRoom.RelayRoom.AttachSocket | fury-clash-server/src/relay-server/relay-room.ts:54-88 | refused without any change when the slot is taken; otherwise waiting to the newcomer and, when both slots are filled, the start to both |
| RelayRoom.RelayRoom.FlushSlot | fury-clash-server/src/relay-server/relay-room.ts:123-131 | the splice loop sends the pending inputs as the specified batches and leaves none pending |
| RelayRoom.RelayRoom.Receive | fury-clash-server/src/relay-server/relay-room.ts:90-121 | a message has an effect only in an active room: a valid input is logged, counted and relayed, a loadout forwarded, anything else ignored; a join's JSON body can make it any of these messages |
| RelayRoom.RelayRoom.CloseSlot | fury-clash-server/src/relay-server/relay-room.ts:133-151 | the opponent is told and the match ends with a win for it; the end callback fires exactly when the room was not closed |
| RelayRoom.RelayRoom.EndMatch | fury-clash-server/src/relay-server/relay-room.ts:153-167 | every reachable slot is told once and the end callback fires exactly when the room was not closed |
| RelayRoom.BatchesShape | fury-clash-server/src/relay-server/relay-room.ts:127-130 | every batch of a flush holds 1 to 8 inputs and the batches are numbered consecutively |
| RelayRoom.BatchesComplete | fury-clash-server/src/relay-server/relay-room.ts:127-130 | the batches of a flush together hold exactly the pending inputs, in order |
| RelayRoom.FlushNumbered | fury-clash-server/src/relay-server/relay-room.ts:123-131 | after a flush everything ever sent to the slot is still numbered 0, 1, 2, ... without gaps |
| RelayRoom.RelayedAppend | fury-clash-server/src/relay-server/relay-room.ts:127-130 | the inputs relayed by two stretches of messages are those of the first followed by those of the second |
| RelayRoom.AttachKeeps | fury-clash-server/src/relay-server/relay-room.ts:54-88 | a join of a room that is not closed keeps the room in order; in particular an active room has both slots filled |
| RelayRoom.StepKeeps | fury-clash-server/src/relay-server/relay-room.ts:54-175 | every event keeps the room in order: both slots filled while active, ended once exactly when closed, nothing pending between events, batches numbered |
| RelayRoom.ClosedIsQuiet | fury-clash-server/src/relay-server/relay-room.ts:91-167 | once closed, a room relays, logs, counts and ends nothing more, whatever happens but a join |
| RelayRoom.AttachReopensClosedRoom | fury-clash-server/src/relay-server/relay-room.ts:54-72 | a join of a closed room makes it active again exactly when the other slot is taken |
| RelayRoom.CloseGivesTheOtherTheWin | fury-clash-server/src/relay-server/relay-room.ts:133-167 | a close in a room that has not ended makes the other slot win two rounds to none; that slot, if reachable, is told of the disconnect and then of the end, the closed one nothing |
| RelayRoom.LogIsOfTheAcceptedInputs | fury-clash-server/src/relay-server/relay-room.ts:90-105 | whatever happens to a room, its log is that of the valid inputs of its active time, in order, and its frame counter is their number |
| RoomManager.DisconnectHandler.CancelSlot | fury-clash-server/src/relay-server/disconnect-handler.ts:45-53 | that timer is gone and every other one stays |
| RoomManager.DisconnectHandler.Clear | fury-clash-server/src/relay-server/disconnect-handler.ts:66-70 | both timers of the room id are gone |
| RoomManager.RoomManager.CreateRoom | fury-clash-server/src/relay-server/room-manager.ts:56-69 | refused without change at capacity, otherwise a new waiting room that the id leads to |
| RoomManager.RoomManager.HandleFirstMessage | fury-clash-server/src/relay-server/room-manager.ts:71-97 | exactly one of the five answers, and only an accepted join changes the room, and cancels the timer of its slot |
| RoomManager.RoomManager.HandleRoomEnd | fury-clash-server/src/relay-server/room-manager.ts:99-102 | the room's id and both its timers are gone, nothing else changes |
| RoomManager.RoomManager.OnForfeit | fury-clash-server/src/relay-server/room-manager.ts:34-46 | the timer is removed first, then the room ends with a forfeit unless it was closed already |
| RoomManager.RoomManager.OnClose | fury-clash-server/src/relay-server/relay-room.ts:133-166 | closing a socket and, if that ended the room, the end handler have together the specified effect on all rooms, the table and the timers |
| RoomManager.RoomManager.OnMessage | fury-clash-server/src/relay-server/relay-room.ts:60-121 | a message changes its own room as specified and no other room, no timer and not the table |
| RoomManager.RoomManager.StartTimer | fury-clash-server/src/relay-server/disconnect-handler.ts:30-43 | a timer for the room and slot is running afterwards, the one already running if there is one, and no room changes |
| RoomManager.RoomManager.OnPing | fury-clash-server/src/relay-server/relay-room.ts:169-175 | a ping of an active room reaches its open slots and changes no other room, no timer and not the table |
| RoomManager.RoomManager.OnDrop | fury-clash-server/src/relay-server/relay-room.ts:108-121 | a socket that leaves the open state changes that slot's open flag and nothing else, in this room or any other |
| RoomManager.NextKeeps | fury-clash-server/src/relay-server/room-manager.ts:34-107 | every event, in any order, keeps every room in order and the table leading only to rooms of that id that are not closed |
| RoomManager.ClosedStays | fury-clash-server/src/relay-server/room-manager.ts:71-107 | no event, through the manager, changes a closed room except which sockets are open |
| RoomManager.RunKeeps | fury-clash-server/src/relay-server/room-manager.ts:34-107 | the same after any run from an empty relay |
| RoomManager.ClosedForever | fury-clash-server/src/relay-server/room-manager.ts:34-107 | over every run a closed room never becomes active again: its state, log, everything sent and the one end payload stay as they are |
| RoomManager.EndedExactlyWhenClosed | fury-clash-server/src/relay-server/relay-room.ts:153-167 | over every run the end callback has fired once for a closed room and never for another, a mapped room is not closed, and an active room has both slots filled |
| RoomManager.CreateLosesARoomExactly | fury-clash-server/src/relay-server/room-manager.ts:56-65 | creating a room keeps every open room reachable if and only if its id is not in the table |
| RoomManager.OpenRoomsStayFound | fury-clash-server/src/relay-server/room-manager.ts:71-107 | every event but a creation keeps every open room reachable under its id |
| RoomManager.OpenRoomsFoundInRunExactly | fury-clash-server/src/relay-server/room-manager.ts:56-107 | over a whole run every open room is reachable at every moment if and only if no creation takes over an id that is in the table |
| LobbyClient.LobbyClient.LobbyTick | fury-clash-client/src/main.c:841-884 | one lobby frame is the client step of the session model: a started match moves on once, and the simulation starts exactly when both loadouts are known |
| LobbyClient.LobbyClient.PressLoadout | fury-clash-client/src/main.c:448-470 | the first press in the selection screen is picked and sent, later ones change nothing |
| LobbyClient.LobbyClient.SendInput | fury-clash-client/src/network/net_client.c:665-685 | an input goes out exactly when the match is ready or running and the socket open |
| LobbyClient.LobbyClient.FixedTick | fury-clash-client/src/main.c:911-933 | a tick advances the frame and, in a fight only, hands over the input of that frame |
| Session.DispatchAgrees | fury-clash-client/src/network/net_client.c:308-419 | the client step on messages is the byte-level dispatch of their encoding, for every server message |
| SessionProof.ClientActionKeeps | fury-clash-client/src/main.c:841-933 | every client action, hang-up and loss of a channel's tail keeps the invariant of both sides |
| SessionProof.QuietActionKeeps | fury-clash-server/src/relay-server/relay-room.ts:133-175 | closed sockets, forfeits and pings keep the invariant |
| SessionProof.RelayEffect | fury-clash-server/src/relay-server/relay-room.ts:90-131 | in an active room a valid input adds exactly one batch with that input to the other slot, a loadout one message, anything else nothing |
| SessionProof.ReadKeeps | fury-clash-server/src/relay-server/room-manager.ts:71-97 | the relay's reading of a join or any later message keeps the invariant |
| SessionProof.StepKeeps | fury-clash-client/src/main.c:841-933 | every step of clients, relay and network keeps the invariant |
| SessionProof.RunKeeps | fury-clash-server/src/relay-server/relay-room.ts:54-175 | the invariant holds at every moment of every run |
| SessionProof.LoadoutsAgree | fury-clash-client/src/main.c:858-884 | in every run, two clients that have both started the simulation started it with the same pair of loadouts, each its own pick |
| SessionProof.FightMeansBothPicked | fury-clash-client/src/main.c:858-884 | a single client in the fight already has the final pair: both have picked, and its pair is their picks |
| SessionProof.NeverBackToWaiting | fury-clash-client/src/network/net_client.c:315-348 | in every run no client that reached the ready state is ever sent back to waiting, although dispatch would do so |
| SessionProof.InputsDeliveredInOrder | fury-clash-server/src/relay-server/relay-room.ts:90-131 | at every moment the (frame, input) pairs a client has confirmed are a prefix, in order, of the valid inputs the other client sent |
| SessionProof.NothingLostWhileActive | fury-clash-server/src/relay-server/relay-room.ts:91-112 | in an active room with intact channels, once everything in transit is read, everything valid that was sent has been confirmed; nothing was discarded for arriving early |
| SessionProof.ConfirmedFramesIncrease | fury-clash-client/src/network/net_client.c:351-366 | confirmed frames strictly increase, so no frame is confirmed twice |
| SessionProof.EachToldItsSlot | fury-clash-server/src/relay-server/relay-room.ts:71-88 | in every run a client is only ever told its own slot, which decides whose inputs are P1's |
| SessionProof.EndIsLast | fury-clash-server/src/relay-server/relay-room.ts:153-167 | in every run a slot is told the end of the match at most once, after everything else, and only by a closed room |
| Pairing.FirstPartner | fury-clash-server/src/matchmaker/matcher.ts:36-46 | the partner is unmatched and in range, and no unmatched entry between is in range |
| Pairing.ScanPairs | fury-clash-server/src/matchmaker/matcher.ts:31-47 | the pairs of a scan are compatible, disjoint, and touch nobody matched before |
| Pairing.ScanLeavesNoPair | fury-clash-server/src/matchmaker/matcher.ts:31-47 | two compatible entries are never both left over |
| Pairing.GreedyIsMaximal | fury-clash-server/src/matchmaker/matcher.ts:25-57 | for any queue order the pairs are a matching within the earlier entry's range, and no two leftovers are compatible |
| Pairing.GreedyHalfOfAny | fury-clash-server/src/matchmaker/matcher.ts:25-57 | for any order and any ranges, no matching has more than twice as many pairs |
| Pairing.GreedyIsLinear | fury-clash-server/src/matchmaker/matcher.ts:31-47 | on an ascending queue the quadratic scan equals a linear scan of neighbours |
| Pairing.Exchange | fury-clash-server/src/matchmaker/matcher.ts:31-57 | when reach grows, any matching can give up one pair so that the rest avoids two neighbours |
| Pairing.GreedyIsMaximum | fury-clash-server/src/matchmaker/matcher.ts:25-57 | on an ascending queue whose rating plus range never decreases, no matching has more pairs than the scan |
| Pairing.GreedyNotAlwaysMaximum | fury-clash-server/src/matchmaker/matcher.ts:50-57 | with the default settings, one player waiting 20 seconds among three newcomers makes the scan find one pair of two |
| Matchmaker.MatchQueue.Dequeue | fury-clash-server/src/matchmaker/queue.ts:11-26 | returns the metadata of exactly the live members, in order; exactly the expired ones are removed; a region without a queue is left alone |
| Matchmaker.MatchQueue.Remove | fury-clash-server/src/matchmaker/queue.ts:28-35 | the player leaves its region's set and its metadata is deleted |
| Matchmaker.EntriesDistinct | fury-clash-server/src/matchmaker/queue.ts:13-25 | the live entries of any queue are distinct players, whatever regions and ratings their metadata names |
| Matchmaker.EntriesOrdered | fury-clash-server/src/matchmaker/queue.ts:13-25 | they ascend by rating when the ratings are the scores the players were queued with |
| Matchmaker.Matcher.FindPartner | fury-clash-server/src/matchmaker/matcher.ts:36-46 | the search over player ids finds the partner the scan on positions would take |
| Matchmaker.Matcher.CreateMatch | fury-clash-server/src/matchmaker/matcher.ts:59-63 | both players leave the queue and their metadata is deleted |
| Matchmaker.Matcher.MatchEntries | fury-clash-server/src/matchmaker/matcher.ts:29-47 | the nested loops over ids and a growing set produce exactly the greedy pairs, and each matched player leaves the set its metadata names |
| Matchmaker.Matcher.ScanRegion | fury-clash-server/src/matchmaker/matcher.ts:25-48 | one scan of any region, whatever the metadata names: the matches are the greedy pairs of the live entries, and queue and metadata afterwards are those of the scan function below |
| Matchmaker.LeaveExactly | fury-clash-server/src/matchmaker/queue.ts:28-35 | after the matches of a scan every region's set has lost exactly the matched players whose metadata names that region |
| Matchmaker.EveryPlayerAccountedFor | fury-clash-server/src/matchmaker/matcher.ts:25-63 | every member of a scanned region is afterwards still queued, in exactly one match, or dropped for expired metadata; a matched one is gone from the set if and only if its metadata names the region |
| Matchmaker.ScanOfConsistentQueue | fury-clash-server/src/matchmaker/matcher.ts:25-57 | when ratings are scores the matches are neighbours in rating, at least half of any pairing, and the most possible when reach grows |
| QueueRuns.StructureKept | fury-clash-server/src/api-server/routes/matchmaking.ts:34-79 | joins, leaves, expiries and scans keep every set duplicate-free and in order and the metadata under its player's id |
| QueueRuns.OthersKeepConsistent | fury-clash-server/src/api-server/routes/matchmaking.ts:65-79 | leaves, expiries and scans keep every live member described by its metadata |
| QueueRuns.JoinKeepsConsistentExactly | fury-clash-server/src/api-server/routes/matchmaking.ts:34-59 | an accepted join keeps it if and only if the player is in no other region's set |
| QueueRuns.FateInRun | fury-clash-server/src/matchmaker/matcher.ts:25-63 | at every scan of every run each member has exactly one of the three fates |
| QueueRuns.ConsistentInRunExactly | fury-clash-server/src/api-server/routes/matchmaking.ts:34-79 | the queues are consistent throughout a run if and only if every accepted join finds the player in no other region's set |
| QueueRuns.SecondRegionBreaks | fury-clash-server/src/api-server/routes/matchmaking.ts:34-59 | joining one region, expiring and joining another leaves the player in both sets, with metadata for the second only |
| Rollback.Rollback.SaveFrame | fury-clash-client/src/network/rollback.c:25-30 | the slot gets the state, a zero local input and no confirmation, and keeps its remote input |
| Rollback.Rollback.RemoteFor | fury-clash-client/src/network/rollback.c:32-43 | the confirmed input of the frame, else what the slot before holds, confirmed or not |
| Rollback.Rollback.ConfirmRemote | fury-clash-client/src/network/rollback.c:45-54 | for every frame, negative or not, whose index C computes inside the ring: the slot holds the input as confirmed, and the divergence moves back only on a mismatch of an unconfirmed slot |
| Rollback.InRingExactly | fury-clash-client/src/network/rollback.c:46-46 | the truncated remainder lies in the ring exactly for frames from 0 on and negative multiples of 128 |
| Rollback.WireFrameInRingExactly | fury-clash-client/src/network/net_client.c:360-364 | of the 32-bit frames on the wire, exactly those below 2^31 and the multiples of 128 index into the ring |
| Rollback.NegativeConfirmClears | fury-clash-client/src/network/rollback.c:45-54 | a negative frame that stays in the ring and mismatches leaves a mark that reads as no divergence |
| Rollback.Rollback.RewindAndResim | fury-clash-client/src/network/rollback.c:60-77 | the loop that reads and writes the same ring ends with the replay of the stored inputs, each slot holding the state after its last replayed frame |
| Rollback.RewindGivesCleanRun | fury-clash-client/src/network/rollback.c:60-77 | if the divergence slot holds the state before that frame, the slots hold the corrected inputs and the window fits the ring, a rewind leaves exactly the state of a clean run; slot f holds the state after f, other slots and all stored inputs are unchanged |
| Rollback.RewindToAFrameNotSimulated | fury-clash-client/src/network/rollback.c:60-77 | a divergence at or beyond the current frame is not replayed: the state becomes whatever its slot holds, the ring stays |
| MainLoop.TickIsCleanExactly | fury-clash-client/src/main.c:918-930 | with the past in order, a fight tick leaves a run of the frames so far if and only if no divergence is pending, or one of a frame not simulated yet whose slot holds the state just reached |
| MainLoop.TickFromHeld | fury-clash-client/src/main.c:918-930 | a tick with a divergence pending has lived through what the slot held, the frames replayed and one more; it starts from something foreign, zeros or an earlier fight, exactly when no frame of this fight was saved in that slot |
| MainLoop.AheadConfirmForgets | fury-clash-client/src/main.c:918-930 | an input for a frame not simulated yet, any distance ahead, sends the simulation back to the state after the last frame of this fight saved in its slot, or to something foreign if there is none |
| MainLoop.CleanTick | fury-clash-client/src/main.c:918-930 | a clean tick adds exactly the local input and the prediction, in the order of the slots, and every snapshot of the ring is still what the history was then |
| MainLoop.DetectionExactly | fury-clash-client/src/network/rollback.c:25-54 | an input that arrives after its frame's tick raises a divergence exactly when it differs from what the slot held before that tick |
| MainLoop.DetectsMispredictionsExactly | fury-clash-client/src/network/rollback.c:25-54 | late inputs reveal exactly the wrong predictions if and only if the slot held the very input that was predicted |
| MainLoop.MissedMisprediction | fury-clash-client/src/network/rollback.c:25-54 | otherwise a wrong prediction goes unnoticed for one input, and the predicted input itself raises a divergence |
| MainLoop.SwallowedInput | fury-clash-client/src/network/rollback.c:45-54 | after an expected input for the frame one ring earlier, no input for this frame raises a divergence |
| MainLoop.TickAtLeast | fury-clash-client/src/main.c:918-930 | a rewind to a past frame puts the simulation ahead of time by at least a frame, and later ticks and rewinds keep it ahead |
| FightRuns.MainLoopIsCleanExactly | fury-clash-client/src/main.c:913-933 | over every run of fight ticks and arriving inputs, for any frames, on either side and whatever an earlier fight left in the ring: after every tick the main loop is at a run of the frames simulated if and only if every tick finds no divergence or a harmless one |
| FightRuns.MainLoopIsTrueExactly | fury-clash-client/src/main.c:913-933 | over every such run: after every tick it is at the run with the inputs both sides gave if and only if moreover every tick predicts the input that was sent for its frame |
| LateInputs.LateRunIsCleanExactly | fury-clash-client/src/main.c:913-933 | when inputs arrive only after their frame's tick, the state at the end is a run of the frames simulated if and only if the main loop has never rewound |
| LateInputs.LateRunIsTrueExactly | fury-clash-client/src/main.c:913-933 | and it is the run with the inputs both sides gave if and only if moreover every prediction was right |
| LateInputs.CleanWhileNothingIsPressed | fury-clash-client/src/network/rollback.c:18-58 | from the ring as initialized, when the inputs arrive late, in order and within a ring: the state is a run of the frames simulated if and only if every input that arrived is zero |
| LateInputs.TrueWhileNothingIsPressed | fury-clash-client/src/network/rollback.c:18-58 | and it is the run with the inputs both sides gave if and only if the other side has pressed nothing in any frame so far, as sent and as arrived |
| MainLoop.RewindOvershoots | fury-clash-client/src/main.c:918-930 | a concrete run of two frames and one late input after which a rewind has simulated three |
| Rollback.PredictionLooksBackOneFrame | fury-clash-client/src/network/rollback.c:32-43 | a confirmed input is predicted for exactly the next frame, if that is unconfirmed, and changes no other prediction within the ring |
| Rollback.DivergeIsLeastMismatch | fury-clash-client/src/network/rollback.c:18-58 | over any interleaving of saves, confirmations and rewinds the divergence frame is the least mismatched frame since the last rewind, -1 if there is none |
| Rollback.WindowAgrees | fury-clash-client/src/network/rollback.c:25-77 | within a window of 128 frames every operation on the ring is the operation on an unbounded table of frames |
| Rollback.WindowRunAgrees | fury-clash-client/src/network/rollback.c:18-77 | the same for any number of operations: same entries, same divergence, same state |
| Rollback.BeyondTheWindow | fury-clash-client/src/network/rollback.c:45-52 | past one window the ring hides a divergence that the table shows |
| SpecialMoves.PushKeepsRing | fury-clash-client/src/gameplay/special_moves.c:29-31 | after a push the ring still holds the last 30 directions of the neutral-padded history |
| SpecialMoves.MotionDetector.Push | fury-clash-client/src/gameplay/special_moves.c:29-37 | the history grows by the direction of the input; ring and both charge counters still describe it |
| SpecialMoves.GreedySound | fury-clash-client/src/gameplay/special_moves.c:40-48 | what the backward search has matched does occur, in order |
| SpecialMoves.GreedyComplete | fury-clash-client/src/gameplay/special_moves.c:40-48 | the backward search is never behind any other way of matching |
| SpecialMoves.GreedyExactly | fury-clash-client/src/gameplay/special_moves.c:40-48 | the search succeeds exactly when the pattern is a subsequence of the last `window` directions |
| SpecialMoves.MotionDetector.FindSequence | fury-clash-client/src/gameplay/special_moves.c:40-48 | the loop over the ring returns true exactly when the pattern is a subsequence of the last `window` directions ever pushed |
| SpecialMoves.MotionDetector.Check | fury-clash-client/src/gameplay/special_moves.c:50-69 | each of the four motions is reported exactly when it occurs and none of higher priority does |
| SpecialMoves.CommandForgets | fury-clash-client/src/gameplay/special_moves.c:50-69 | histories that agree on the last 15 directions give the same command, so no 40-frame hold can matter |
| SpecialMoves.ChargeWithoutHolding | fury-clash-client/src/gameplay/special_moves.c:61-66 | forward then neutral, with back never held, is reported as a charge |
| SpecialMoves.OccurrenceAges | fury-clash-client/src/gameplay/special_moves.c:40-48 | an occurrence survives any further push in a window one longer |
| Fighters.Fighter.TickOnce | fury-clash-client/src/gameplay/fighter.c:27-134 | the field-by-field tick ends in exactly the state of the tick function whose run invariants are proved below |
| Fighters.Fighter.MoveStep | fury-clash-client/src/gameplay/physics.c:11-25 | motion ends at or above the ground, and ends a jump exactly when it reaches the ground |
| Fighters.Fighter.TakeHit | fury-clash-client/src/gameplay/fighter.c:136-151 | chip or full damage with health never below zero, and only an unblocked hit counts for the combo |
| Simulation.CheckHit | fury-clash-client/src/gameplay/hitbox.c:10-28 | true exactly when some live hitbox, mirrored by facing, meets the hurtbox |
| Simulation.ResolveHit | fury-clash-client/src/gameplay/hitbox.c:30-39 | a hit that connects disarms the attacker and costs the defender the loadout-scaled damage |
| Simulation.Simulation.constructor | fury-clash-client/src/gameplay/simulation.c:12-36 | both fighters start with their own loadout's damage percentage and health |
| Simulation.Simulation.TickOnce | fury-clash-client/src/gameplay/simulation.c:38-58 | the in-place tick is the tick function on the saved state, and nothing changes once the match is over |
| Simulation.Simulation.Restore | fury-clash-client/src/gameplay/simulation.c:92-98 | saving after restoring a snapshot gives that snapshot back |
| Simulation.ActKeeps | fury-clash-client/src/gameplay/fighter.c:52-134 | acting keeps attacks to the two air moves, at most one live hitbox and that of an air move, and changes neither health nor combo |
| Simulation.TickKeeps | fury-clash-client/src/gameplay/fighter.c:27-134 | a tick keeps the fighter on the stage, above ground, with stun counters at least zero, and its health determined by the damage taken |
| Simulation.ResolveKeeps | fury-clash-client/src/gameplay/hitbox.c:30-39 | every hit that lands is unblocked, costs 50, 60, 90 or 108, and is counted exactly once in health and combo |
| Simulation.TraceKeeps | fury-clash-client/src/gameplay/simulation.c:38-58 | a tick of both fighters keeps all of this for both |
| Simulation.RunSim | fury-clash-client/src/gameplay/simulation.c:12-58 | for all input sequences: x in [50, 1230], y at most 540, stun at least 0, at most one live hitbox, attacks only with an air move, combo equal to the hits taken, health equal to max(0, max health minus the total damage taken) |
| Simulation.HitForever | fury-clash-client/src/gameplay/fighter.c:142-149 | a fighter that has been hit once stays in the hit state for the rest of any run |
| Mirror.TickMirrors | fury-clash-client/src/gameplay/fighter.c:27-134 | a tick commutes with exchanging left and right in fighter, buttons and opponent, unless both stand on the same spot |
| Mirror.PushMirrors | fury-clash-client/src/gameplay/physics.c:32-44 | pushing apart commutes with exchanging left and right |
| Mirror.ReachExactly | fury-clash-client/src/gameplay/hitbox.c:10-28 | which forward distances a box reaches: from near to far edge facing right, but behind its near edge facing left |
| Mirror.HitMirrorsExactly | fury-clash-client/src/gameplay/hitbox.c:19-26 | a mirrored attack has the same outcome if and only if the heights do not meet or the defender is not between 30 and 30 plus the box's width away from the box's near edge |
| Mirror.LightPunchOnlyToTheRight | fury-clash-client/src/gameplay/fighter_data.c:31-35 | the light air punch at the right height and an opponent from 35 up to 95 ahead hits if and only if the attacker faces right |
| Mirror.KnockbackMirrorsExactly | fury-clash-client/src/gameplay/fighter.c:136-151 | taking a hit commutes with exchanging left and right if and only if the move has no horizontal knockback |
| JumpArc.UpLaunches | fury-clash-client/src/gameplay/fighter.c:87-104 | pressing up on the ground launches with the fighter's own speed |
| JumpArc.HeightBounds | fury-clash-client/src/gameplay/physics.c:5-25 | the closed form stays more than one pixel above the ground on every tick before the landing tick and has reached it there |
| JumpArc.FloatingTick | fury-clash-client/src/gameplay/fighter.c:37-130 | a tick of a jumping or air-attacking fighter is free motion, with or without a punch, and ends on the ground when that is reached |
| JumpArc.JumpFollowsParabola | fury-clash-client/src/gameplay/physics.c:5-25 | an un-hit jump launched at speed v is at height 540 - vk/60 + k(k-1)/4 after k ticks and lands exactly on the landing tick, air attacks or not, pushed sideways or not |
| JumpArc.LandingTicks | fury-clash-client/src/gameplay/physics.c:15-25 | the landing tick is 61 for speed 900 and 63 for 920, and is the least k with k - 1 >= v / 15 |
| Reach.UnhitIsOnArc | fury-clash-client/src/gameplay/simulation.c:38-58 | in every run a fighter that has not been hit stands on the ground or is on the arc of a jump between launch and landing |
| Reach.SameAttackFromBothSides | fury-clash-client/src/gameplay/hitbox.c:19-26 | one plan of buttons makes P1 hit P2 for 50; the mirrored plan brings P2's live punch to the same distance and height and does not hit P1 |
| Round.RoundState.TickOnce | fury-clash-client/src/gameplay/round.c:12-38 | the counters and flags after a tick are those of the round function |
| Round.RoundState.NextRound | fury-clash-client/src/gameplay/round.c:40-45 | a restart, which nothing in the repository calls, clears the round's outcome and timer and keeps the rounds won and the end of the match |
| Round.MatchCanEndExactly | fury-clash-client/src/gameplay/round.c:12-45 | a caller can end a match, for some health values, if and only if it calls the restart between two of its ticks; no caller in the repository does |
| Round.DriveKeeps | fury-clash-client/src/gameplay/round.c:12-45 | for a caller that restarts every round, which the repository does not have: n finished rounds mean between n and 2n rounds won, and a match that is not over has strictly fewer ticks left after each tick |
| Round.MatchEnds | fury-clash-client/src/gameplay/round.c:5-45 | for a caller that restarts every round, which the repository does not have: for every sequence of health values the match is over within 17820 ticks and three rounds |
| Simulation.MatchNeverOver | fury-clash-client/src/gameplay/simulation.c:38-58 | for all input sequences: round 1, nobody with two wins, the match not over, the timer counting every tick, and the round over at the latest after 5940 ticks |
| Simulation.RoundFrozen | fury-clash-client/src/gameplay/round.c:12-13 | for all input sequences: once over, the round's state never changes again |
| Round.TimeoutExactly | fury-clash-client/src/gameplay/round.c:21-33 | a timeout is P1's round if and only if P1 has more health, and P2's otherwise |
| GameLoop.GameLoop.RunHostFrame | fury-clash-client/src/main.c:911-933 | one host frame executes as many whole ticks as the accumulated time holds, at most three, so the frame-skip cap never drops one |
| GameLoop.HostFrameKeeps | fury-clash-client/src/core/gameloop.c:14-33 | less than a tick is left over, and accumulator plus ticks grows by exactly the clamped time |
| GameLoop.GameLoop.RenderAlpha | fury-clash-client/src/core/gameloop.c:35-37 | between host frames the blend factor is in [0, 1) |
| GameLoop.RunAccounts | fury-clash-client/src/core/gameloop.c:14-37 | over every run the executed ticks equal the frame counter, accumulator plus ticks equals the total clamped time, and the render blend factor is in [0, 1) |
| Elo.EqualKSumExactly | fury-clash-server/src/matchmaker/elo.ts:34-35 | with equal K the two changes sum to 1 exactly when the exact change is a half, and to 0 otherwise |
| Elo.DeltaBounds | fury-clash-server/src/matchmaker/elo.ts:23-35 | no change exceeds its K, a winner never loses and a loser never gains points |
| Elo.PlaySum | fury-clash-server/src/matchmaker/elo.ts:37-42 | one match changes the total rating by the points given at the floor plus 0 or 1, and keeps everybody at the floor or above |
| Elo.TotalRating | fury-clash-server/src/matchmaker/elo.ts:16-43 | over any sequence of equal-K matches the total rating never falls and, apart from the points given at the floor, rises by at most one per match |

## Left out

- Sockets, DNS, HTTP, TLS, `send` failures and partial writes: what was handed to a socket counts as sent, up to a lost tail of a channel.
- WebSocket fragmentation and the bodies of control frames: the client supports neither.
- JSON text (`json_int`, `strstr`, `JSON.parse`): a parser result is a parameter; a slot other than 0 or 1 in a join message is not modelled.
- Frames larger than the receive buffer and bytes after the first error: chunk independence is stated up to the first error and for frames that fit; after an error the loop handles one frame per call.
- WsClient.Client.ParseFrame: leaves out the 64-bit lengths for which header plus length wraps `size_t`: the last 14 below 2^64 for a masked frame, whose unmasking the source then runs past the buffer, and the last 10 for an unmasked frame, which the source takes with its wrapped size of 0 to 9 bytes (0 reads as incomplete) and dispatches from whatever the static buffer holds behind the header. Section 5.2 of RFC 6455 forbids these lengths and all others with the top bit set, which the model does cover.
- WsClient.Client.ProcessFrames: leaves out the same lengths, and so the messages dispatched from behind such a header.
- WsClient.Client.Receive: leaves out the same lengths among the bytes `recv` delivers; a call delivers between one byte and the free space.
- RelayRoom.RelayRoom.Receive: sequence numbers stay below 65536 per slot, because writing a larger one raises in the source and the process state after that is not modelled; a join body whose `type` makes it another message carries field values of that message's width, other JSON numbers and values are left out.
- LobbyClient.LobbyClient.FixedTick: frame counters stay below 2^31.
- SessionProof.RunKeeps: a client connects once; reconnecting to the same room, other connections to the room, the command-line path and local mode are not part of the runs.
- Session: `main.c`'s event loop is split into the client's actions; the server address, room codes and screen positions are left out.
- Matchmaker.Matcher.ScanRegion: a scan is atomic; overlapping scans, a relay that refuses after the players left the queue, and expiry of metadata during a scan are left out.
- Matchmaker.EntriesOrdered: conditional on ratings being the scores; `QueueRuns.ConsistentInRunExactly` says in which runs they are.
- QueueRuns: a join takes effect at once; the rage-quit ban and two simultaneous requests of one player are left out, and ties in rating may be ordered in any way.
- RoomManager.RoomManager.HandleRoomEnd: persistence, rating and replay jobs after the synchronous head are left out.
- Elo.TotalRating: the expected score is any real in (0, 1) instead of a power of ten, and both players have the same K.
- Rollback.RewindGivesCleanRun: conditional on its hypotheses; the main loop does not establish them.
- Rollback.Rollback.ConfirmRemote: a frame whose index leaves the ring is undefined in the source and has no modelled effect.
- FightRuns.Turn: arriving inputs whose index leaves the ring are left out as above.
- JumpArc.JumpFollowsParabola: exact arithmetic; the two clients' floating point, and its determinism across devices, are not modelled.
- Fighters.Fighter.TickOnce: super meter, animation, cancel windows and walk speeds of the fighter table have no reader here and are left out.
- RoomManager: references to rooms are indices into the list of all rooms ever created; runs end before a slot's 65537th batch, on which the source raises.
- Overflow of counters other than those named above (rounds, combo, health, ticks) is not modelled; the client's own frame numbers are non-negative.
- Rendering, audio, touch layout, `input_buffer.c`, `serializer.c`, `combo.c`, `super.c`, `net_stats.c`, `state_machine.c`, `memory.c`, Fastify routes, authentication, Prisma, BullMQ and Redis internals: input and output, or only easy members.
