/** One relay room: two slots, input forwarding in numbered batches, and a single end. */
module RelayRoom {
  import opened Bytes
  import opened Protocol
  import Log = InputLog

  datatype RoomState = Waiting | Active | Ending | Closed

  datatype EndReason = Disconnect | Forfeit

  datatype EndPayload = EndPayload(winnerSlot: Slot, reason: EndReason, p1RoundsWon: nat, p2RoundsWon: nat,
      durationFrames: nat)

  /** Messages to a client; JSON bodies are kept as their fields. */
  datatype ServerMsg =
    | ServerWaiting
    | ServerStart(yourSlot: Slot)
    | ServerRelay(seqNo: nat, entries: seq<RelayEntry>)
    | ServerLoadout(loadout: byte)
    | ServerOpponentDisconnect
    | ServerEnd(payload: EndPayload)
    | ServerPing(timestamp: nat)

  datatype SlotInfo = SlotInfo(playerId: string, fighterId: int, seqNo: nat, pending: seq<RelayEntry>)

  datatype RoomConfig = RoomConfig(roomId: string, p1Id: string, p2Id: string, p1Fighter: int, p2Fighter: int)

  /** A room's fields, with what each socket was given to send (`out`), whether the socket is
      open, and the payloads `onEnd` was called with. */
  datatype Room = Room(
    cfg: RoomConfig,
    state: RoomState,
    slots: seq<Option<SlotInfo>>,
    open: seq<bool>,
    out: seq<seq<ServerMsg>>,
    frameCount: nat,
    log: Log.LogState,
    pinging: bool,
    ended: seq<EndPayload>)
  {
    /** There are two slots. */
    predicate Shape() {
      |slots| == 2 && |open| == 2 && |out| == 2
    }

    /** The slot is taken and its socket is open. */
    predicate Reachable(s: Slot)
      requires Shape()
    {
      slots[s].Some? && open[s]
    }

    /** A send on a socket that is not open has no effect. */
    function Send(s: Slot, m: ServerMsg): (r: Room)
      requires Shape()
      ensures r.Shape()
    {
      if open[s] then this.(out := out[s := out[s] + [m]]) else this
    }
  }

  function NewRoom(cfg: RoomConfig): Room {
    Room(cfg, Waiting, [None, None], [false, false], [[], []], 0, Log.EMPTY, false, [])
  }

  // ----- The operations -----

  function StartMatch(r: Room): (r': Room)
    requires r.Shape()
    ensures r'.Shape()
  {
    r.(state := Active, pinging := true).Send(0, ServerStart(0)).Send(1, ServerStart(1))
  }

  /** Attaching a socket to a free slot; the state of the room is not looked at. */
  function Attach(r: Room, s: Slot, playerId: string, fighterId: int): (p: (Room, bool))
    requires r.Shape()
    ensures p.0.Shape()
  {
    if r.slots[s].Some? then (r, false)
    else
      var joined := r.(slots := r.slots[s := Some(SlotInfo(playerId, fighterId, 0, []))], open := r.open[s := true]);
      var told := joined.Send(s, ServerWaiting);
      (if told.slots[0].Some? && told.slots[1].Some? then StartMatch(told) else told, true)
  }

  /** The batches a flush sends: at most eight entries each, numbered from seqNo. */
  function Batches(seqNo: nat, pending: seq<RelayEntry>): seq<ServerMsg>
    decreases |pending|
  {
    if pending == [] then []
    else
      var n := if |pending| < MAX_RELAY_BATCH then |pending| else MAX_RELAY_BATCH;
      [ServerRelay(seqNo, pending[..n])] + Batches(seqNo + 1, pending[n..])
  }

  function Flush(r: Room, s: Slot): (r': Room)
    requires r.Shape()
    ensures r'.Shape()
  {
    if r.slots[s].None? then r
    else
      var info := r.slots[s].value;
      var batches := Batches(info.seqNo, info.pending);
      var sent := r.(slots := r.slots[s := Some(info.(seqNo := info.seqNo + |batches|, pending := []))]);
      if r.open[s] then sent.(out := r.out[s := r.out[s] + batches]) else sent
  }

  function RelayInput(r: Room, s: Slot, frame: uint32, input: uint16): (r': Room)
    requires r.Shape()
    ensures r'.Shape()
  {
    if !IsValidInput(input) then r
    else
      var logged := r.(log := Log.Record(r.log, Log.Event(s, frame, input)), frameCount := r.frameCount + 1);
      var o := Other(s);
      if !logged.Reachable(o) then logged
      else
        var info := logged.slots[o].value;
        Flush(logged.(slots := logged.slots[o := Some(info.(pending := info.pending + [RelayEntry(frame, input)]))]), o)
  }

  function HandleMessage(r: Room, s: Slot, msg: Option<ClientMsg>): (r': Room)
    requires r.Shape()
    ensures r'.Shape()
  {
    if r.state != Active then r
    else match msg
      case Some(Input(_, frame, input)) => RelayInput(r, s, frame, input)
      case Some(Loadout(b)) => if r.Reachable(Other(s)) then r.Send(Other(s), ServerLoadout(b)) else r
      case _ => r
  }

  function SendIfReachable(r: Room, s: Slot, m: ServerMsg): (r': Room)
    requires r.Shape()
    ensures r'.Shape()
  {
    if r.Reachable(s) then r.Send(s, m) else r
  }

  function End(r: Room, payload: EndPayload): (r': Room)
    requires r.Shape()
    ensures r'.Shape()
  {
    if r.state == Closed then r
    else
      var told := SendIfReachable(SendIfReachable(r.(state := Ending), 0, ServerEnd(payload)), 1, ServerEnd(payload));
      told.(pinging := false, state := Closed, ended := r.ended + [payload])
  }

  function LossOf(loser: Slot, reason: EndReason, frames: nat): EndPayload {
    EndPayload(Other(loser), reason, if loser == 0 then 0 else 2, if loser == 1 then 0 else 2, frames)
  }

  function HandleClose(r: Room, s: Slot): (r': Room)
    requires r.Shape()
    ensures r'.Shape()
  {
    if r.state == Closed then r
    else End(SendIfReachable(r, Other(s), ServerOpponentDisconnect), LossOf(s, Disconnect, r.frameCount))
  }

  function SendPing(r: Room, timestamp: nat): (r': Room)
    requires r.Shape()
    ensures r'.Shape()
  {
    SendIfReachable(SendIfReachable(r, 0, ServerPing(timestamp)), 1, ServerPing(timestamp))
  }

  /** Flushing is sending the first batch and flushing the rest. */
  lemma FlushOneBatch(r: Room, s: Slot)
    requires r.Shape() && r.slots[s].Some? && r.slots[s].value.pending != []
    ensures var info := r.slots[s].value;
            var n := if |info.pending| < MAX_RELAY_BATCH then |info.pending| else MAX_RELAY_BATCH;
            var cut := r.(slots := r.slots[s := Some(info.(seqNo := info.seqNo + 1, pending := info.pending[n..]))]);
            Flush(cut.Send(s, ServerRelay(info.seqNo, info.pending[..n])), s) == Flush(r, s)
  {
    var info := r.slots[s].value;
    var n := if |info.pending| < MAX_RELAY_BATCH then |info.pending| else MAX_RELAY_BATCH;
    var rest := Batches(info.seqNo + 1, info.pending[n..]);
    assert r.out[s] + ([ServerRelay(info.seqNo, info.pending[..n])] + rest)
        == r.out[s] + [ServerRelay(info.seqNo, info.pending[..n])] + rest;
  }

  lemma FlushNothing(r: Room, s: Slot)
    requires r.Shape() && r.slots[s].Some? && r.slots[s].value.pending == []
    ensures Flush(r, s) == r
  {
    var none: seq<ServerMsg> := [];
    assert r.out[s] + none == r.out[s];
    assert r.out[s := r.out[s]] == r.out && r.slots[s := r.slots[s]] == r.slots;
  }

  // ----- The class -----

  class RelayRoom {
    const cfg: RoomConfig
    var state: RoomState
    const inputLog: Log.InputLog
    var slots: seq<Option<SlotInfo>>
    var open: seq<bool>
    var out: seq<seq<ServerMsg>>
    var pinging: bool
    var frameCount: nat
    var ended: seq<EndPayload>

    function Val(): Room
      reads this, inputLog
    {
      Room(cfg, state, slots, open, out, frameCount, inputLog.Val(), pinging, ended)
    }

    constructor (config: RoomConfig)
      ensures Val() == NewRoom(config) && fresh(inputLog)
    {
      cfg := config;
      state := Waiting;
      inputLog := new Log.InputLog();
      slots, open, out := [None, None], [false, false], [[], []];
      pinging, frameCount, ended := false, 0, [];
    }

    method SendOn(s: Slot, m: ServerMsg)
      requires Val().Shape()
      modifies this`out
      ensures Val() == old(Val()).Send(s, m)
    {
      if open[s] {
        out := out[s := out[s] + [m]];
      }
    }

    method AttachSocket(s: Slot, playerId: string, fighterId: int) returns (ok: bool)
      requires Val().Shape()
      modifies this
      ensures (Val(), ok) == Attach(old(Val()), s, playerId, fighterId)
    {
      if slots[s].Some? {
        return false;
      }
      slots := slots[s := Some(SlotInfo(playerId, fighterId, 0, []))];
      open := open[s := true];
      SendOn(s, ServerWaiting);
      if slots[0].Some? && slots[1].Some? {
        state := Active;
        SendOn(0, ServerStart(0));
        SendOn(1, ServerStart(1));
        pinging := true;
      }
      ok := true;
    }

    /** Splices the next batch off the pending inputs and sends it. A sequence number that no
        longer fits 16 bits raises in the source, so the caller keeps below it. */
    method SendNextBatch(s: Slot)
      requires Val().Shape() && slots[s].Some? && slots[s].value.pending != [] && slots[s].value.seqNo < 0x1_0000
      modifies this`slots, this`out
      ensures Val().Shape() && slots[s].Some?
      ensures var info := old(slots[s].value);
              var n := if |info.pending| < MAX_RELAY_BATCH then |info.pending| else MAX_RELAY_BATCH;
              && slots == old(slots)[s := Some(info.(seqNo := info.seqNo + 1, pending := info.pending[n..]))]
              && out == if open[s] then old(out)[s := old(out)[s] + [ServerRelay(info.seqNo,
                  info.pending[..n])]] else old(out)
    {
      var info := slots[s].value;
      var n := if |info.pending| < MAX_RELAY_BATCH then |info.pending| else MAX_RELAY_BATCH;
      var batch := info.pending[..n];
      assert EncodeRelayBatch(info.seqNo, batch).Some?;
      SendOn(s, ServerRelay(info.seqNo, batch));
      slots := slots[s := Some(info.(seqNo := info.seqNo + 1, pending := info.pending[n..]))];
    }

    /** Sends batches until nothing is pending. */
    method FlushSlot(s: Slot)
      requires Val().Shape()
      requires slots[s].Some? ==> slots[s].value.seqNo + |slots[s].value.pending| <= 0x1_0000
      modifies this`slots, this`out
      ensures Val() == Flush(old(Val()), s)
    {
      if slots[s].None? { return; }
      ghost var r := Val();
      while |slots[s].value.pending| > 0
        invariant Val().Shape() && slots[s].Some?
        invariant slots[s].value.seqNo + |slots[s].value.pending| <= 0x1_0000
        invariant Flush(Val(), s) == Flush(r, s)
        decreases |slots[s].value.pending|
      {
        ghost var before := Val();
        SendNextBatch(s);
        FlushOneBatch(before, s);
      }
      FlushNothing(Val(), s);
    }

    method Receive(s: Slot, data: seq<byte>, parseBody: seq<byte> -> Option<ClientMsg>)
      requires Val().Shape()
      requires forall o: Slot :: slots[o].Some? ==> slots[o].value.seqNo + |slots[o].value.pending| < 0x1_0000
      modifies this, inputLog
      ensures Val() == HandleMessage(old(Val()), s, DecodeClientMsg(data, parseBody))
    {
      if state != Active { return; }
      var msg := DecodeClientMsg(data, parseBody);
      if msg.None? { return; }
      var o := Other(s);
      if msg.value.Input? {
        var frame, input := msg.value.frame, msg.value.input;
        if !IsValidInput(input) { return; }
        if s == 0 {
          inputLog.RecordP1(frame, input);
        } else {
          inputLog.RecordP2(frame, input);
        }
        frameCount := frameCount + 1;
        if slots[o].Some? && open[o] {
          var info := slots[o].value;
          slots := slots[o := Some(info.(pending := info.pending + [RelayEntry(frame, input)]))];
          FlushSlot(o);
        }
      } else if msg.value.Loadout? {
        if slots[o].Some? && open[o] {
          SendOn(o, ServerLoadout(msg.value.loadout));
        }
      }
    }

    /** The close event of a slot's socket; `fired` tells that onEnd was called. */
    method CloseSlot(s: Slot) returns (fired: bool)
      requires Val().Shape()
      modifies this
      ensures Val() == HandleClose(old(Val()), s)
      ensures fired == (old(state) != Closed)
    {
      if state == Closed { return false; }
      var o := Other(s);
      if slots[o].Some? && open[o] {
        SendOn(o, ServerOpponentDisconnect);
      }
      fired := EndMatch(LossOf(s, Disconnect, frameCount));
    }

    method EndMatch(payload: EndPayload) returns (fired: bool)
      requires Val().Shape()
      modifies this
      ensures Val() == End(old(Val()), payload)
      ensures fired == (old(state) != Closed)
    {
      if state == Closed { return false; }
      state := Ending;
      if slots[0].Some? && open[0] { SendOn(0, ServerEnd(payload)); }
      if slots[1].Some? && open[1] { SendOn(1, ServerEnd(payload)); }
      pinging := false;
      state := Closed;
      ended := ended + [payload];
      fired := true;
    }

    method Ping(timestamp: nat)
      requires Val().Shape()
      modifies this`out
      ensures Val() == SendPing(old(Val()), timestamp)
    {
      if slots[0].Some? && open[0] { SendOn(0, ServerPing(timestamp)); }
      if slots[1].Some? && open[1] { SendOn(1, ServerPing(timestamp)); }
    }

    /** The socket of a slot leaves the open state. */
    method SocketDown(s: Slot)
      requires Val().Shape()
      modifies this`open
      ensures Val() == old(Val()).(open := old(open)[s := false])
    {
      open := open[s := false];
    }
  }

  // ----- What every event keeps -----

  /** What can happen to a room. */
  datatype RoomEvent =
    | Joins(slot: Slot, playerId: string, fighterId: int)
    | Says(slot: Slot, msg: Option<ClientMsg>)
    | Drops(slot: Slot)
    | Closes(slot: Slot)
    | Forfeits(loser: Slot)
    | Pings(timestamp: nat)

  /** Message and close handlers exist only for attached sockets, the ping timer only while it is set. */
  predicate Enabled(r: Room, e: RoomEvent)
    requires r.Shape()
  {
    match e
    case Says(s, _) => r.slots[s].Some?
    case Closes(s) => r.slots[s].Some? && !r.open[s]
    case Drops(s) => r.slots[s].Some?
    case Pings(_) => r.pinging
    case _ => true
  }

  function Step(r: Room, e: RoomEvent): (r': Room)
    requires r.Shape()
    ensures r'.Shape()
  {
    match e
    case Joins(s, playerId, fighterId) => Attach(r, s, playerId, fighterId).0
    case Says(s, msg) => HandleMessage(r, s, msg)
    case Drops(s) => r.(open := r.open[s := false])
    case Closes(s) => HandleClose(r, s)
    case Forfeits(loser) => End(r, LossOf(loser, Forfeit, 0))
    case Pings(t) => SendPing(r, t)
  }

  /** The relay batches among ms are numbered 0, 1, ..., n - 1 in order and hold 1 to 8 inputs. */
  predicate NumberedRelays(ms: seq<ServerMsg>, n: nat)
    decreases |ms|
  {
    if ms == [] then n == 0
    else
      var last := ms[|ms| - 1];
      if last.ServerRelay? then
        n > 0 && last.seqNo == n - 1 && 1 <= |last.entries| <= MAX_RELAY_BATCH && NumberedRelays(ms[..|ms| - 1], n - 1)
      else NumberedRelays(ms[..|ms| - 1], n)
  }

  predicate SlotOk(r: Room, s: Slot)
    requires r.Shape()
  {
    match r.slots[s]
    case None => r.out[s] == [] && !r.open[s]
    case Some(info) => info.pending == [] && NumberedRelays(r.out[s], info.seqNo)
  }

  /** Between events: an active room has both slots taken, the room is ended exactly once when it is
      closed, no input is left pending, and batches are numbered without gaps. */
  predicate RoomOk(r: Room) {
    && r.Shape()
    && r.state != Ending
    && (r.state == Active ==> r.slots[0].Some? && r.slots[1].Some?)
    && (r.state == Waiting ==> r.slots[0].None? || r.slots[1].None?)
    && (r.pinging <==> r.state == Active)
    && |r.ended| == (if r.state == Closed then 1 else 0)
    && SlotOk(r, 0) && SlotOk(r, 1)
  }

  lemma NumberedMore(ms: seq<ServerMsg>, n: nat, m: ServerMsg)
    requires NumberedRelays(ms, n)
    ensures m.ServerRelay? && m.seqNo == n && 1 <= |m.entries| <= MAX_RELAY_BATCH ==> NumberedRelays(ms + [m], n + 1)
    ensures !m.ServerRelay? ==> NumberedRelays(ms + [m], n)
  {
    assert (ms + [m])[..|ms|] == ms;
  }

  /** A flush cuts the pending inputs into batches of 1 to 8 with consecutive numbers. */
  lemma {:induction false} BatchesShape(n: nat, pending: seq<RelayEntry>, i: nat)
    requires i < |Batches(n, pending)|
    ensures var m := Batches(n, pending)[i];
            m.ServerRelay? && m.seqNo == n + i && 1 <= |m.entries| <= MAX_RELAY_BATCH
    decreases |pending|
  {
    if i > 0 {
      BatchesShape(n + 1, pending[if |pending| < MAX_RELAY_BATCH then |pending| else MAX_RELAY_BATCH..], i - 1);
    }
  }

  /** Batches of 1 to 8 with consecutive numbers from n on. */
  predicate Consecutive(bs: seq<ServerMsg>, n: nat) {
    forall i :: 0 <= i < |bs| ==>
      bs[i].ServerRelay? && bs[i].seqNo == n + i && 1 <= |bs[i].entries| <= MAX_RELAY_BATCH
  }

  lemma NumberedNext(all: seq<ServerMsg>, ms: seq<ServerMsg>, n: nat, m: ServerMsg, next: nat)
    requires NumberedRelays(ms, n) && all == ms + [m] && next == n + 1
    requires m.ServerRelay? && m.seqNo == n && 1 <= |m.entries| <= MAX_RELAY_BATCH
    ensures NumberedRelays(all, next)
  {
    NumberedMore(ms, n, m);
  }

  lemma {:induction false} NumberedAppend(ms: seq<ServerMsg>, n: nat, bs: seq<ServerMsg>, next: nat)
    requires NumberedRelays(ms, n) && Consecutive(bs, n) && next == n + |bs|
    ensures NumberedRelays(ms + bs, next)
    decreases |bs|
  {
    if bs == [] {
      assert ms + bs == ms;
    } else {
      var k := |bs| - 1;
      NumberedAppend(ms, n, bs[..k], next - 1);
      assert ms + bs == ms + bs[..k] + [bs[k]];
      NumberedNext(ms + bs, ms + bs[..k], next - 1, bs[k], next);
    }
  }

  lemma FlushNumbered(ms: seq<ServerMsg>, n: nat, pending: seq<RelayEntry>)
    requires NumberedRelays(ms, n)
    ensures NumberedRelays(ms + Batches(n, pending), n + |Batches(n, pending)|)
  {
    forall i | 0 <= i < |Batches(n, pending)|
      ensures var m := Batches(n, pending)[i];
              m.ServerRelay? && m.seqNo == n + i && 1 <= |m.entries| <= MAX_RELAY_BATCH
    {
      BatchesShape(n, pending, i);
    }
    NumberedAppend(ms, n, Batches(n, pending), n + |Batches(n, pending)|);
  }

  /** All inputs in the relay batches among ms, in order. */
  function RelayedEntries(ms: seq<ServerMsg>): seq<RelayEntry>
    decreases |ms|
  {
    if ms == [] then []
    else
      RelayedEntries(ms[..|ms| - 1]) + (var m := ms[|ms| - 1]; if m.ServerRelay? then m.entries else [])
  }

  lemma {:induction false} RelayedAppend(a: seq<ServerMsg>, b: seq<ServerMsg>)
    ensures RelayedEntries(a + b) == RelayedEntries(a) + RelayedEntries(b)
    decreases |b|
  {
    if b == [] {
      assert a + b == a;
    } else {
      var n := |b| - 1;
      assert (a + b)[..|a + b| - 1] == a + b[..n];
      RelayedAppend(a, b[..n]);
    }
  }

  /** The batches of a flush hold exactly the pending inputs, in order. */
  lemma {:induction false} BatchesComplete(n: nat, pending: seq<RelayEntry>)
    ensures RelayedEntries(Batches(n, pending)) == pending
    decreases |pending|
  {
    if pending != [] {
      var k := if |pending| < MAX_RELAY_BATCH then |pending| else MAX_RELAY_BATCH;
      var first := ServerRelay(n, pending[..k]);
      assert [first][..0] == [];
      assert RelayedEntries([first]) == [] + pending[..k];
      BatchesComplete(n + 1, pending[k..]);
      RelayedAppend([first], Batches(n + 1, pending[k..]));
    }
  }

  lemma SendKeepsSlots(r: Room, s: Slot, m: ServerMsg)
    requires r.Shape() && SlotOk(r, 0) && SlotOk(r, 1) && !m.ServerRelay?
    ensures var r' := r.Send(s, m); SlotOk(r', 0) && SlotOk(r', 1) && r' == r.(out := r'.out)
  {
    if r.open[s] {
      NumberedMore(r.out[s], r.slots[s].value.seqNo, m);
    }
  }

  lemma StartKeeps(r: Room)
    requires r.Shape() && r.state == Waiting && r.slots[0].Some? && r.slots[1].Some?
    requires r.ended == [] && SlotOk(r, 0) && SlotOk(r, 1)
    ensures RoomOk(StartMatch(r))
  {
    var active := r.(state := Active, pinging := true);
    SendKeepsSlots(active, 0, ServerStart(0));
    SendKeepsSlots(active.Send(0, ServerStart(0)), 1, ServerStart(1));
  }

  lemma AttachKeeps(r: Room, s: Slot, playerId: string, fighterId: int)
    requires RoomOk(r) && r.state != Closed
    ensures RoomOk(Attach(r, s, playerId, fighterId).0)
  {
    if r.slots[s].None? {
      var joined := r.(slots := r.slots[s := Some(SlotInfo(playerId, fighterId, 0, []))], open := r.open[s := true]);
      assert SlotOk(joined, s) && SlotOk(joined, Other(s));
      SendKeepsSlots(joined, s, ServerWaiting);
      var told := joined.Send(s, ServerWaiting);
      if told.slots[0].Some? && told.slots[1].Some? {
        StartKeeps(told);
      }
    }
  }

  lemma RelayInputKeeps(r: Room, s: Slot, frame: uint32, input: uint16)
    requires RoomOk(r)
    ensures RoomOk(RelayInput(r, s, frame, input))
  {
    var o := Other(s);
    if IsValidInput(input) && r.Reachable(o) {
      var info := r.slots[o].value;
      FlushNumbered(r.out[o], info.seqNo, info.pending + [RelayEntry(frame, input)]);
    }
  }

  lemma EndKeeps(r: Room, payload: EndPayload)
    requires RoomOk(r)
    ensures RoomOk(End(r, payload)) && End(r, payload).state == Closed
  {
    if r.state != Closed {
      var r0 := r.(state := Ending);
      SendKeepsSlots(r0, 0, ServerEnd(payload));
      var r1 := SendIfReachable(r0, 0, ServerEnd(payload));
      SendKeepsSlots(r1, 1, ServerEnd(payload));
    }
  }

  /** Every event of an open room, and every event but a join of a closed one, keeps the room in order. */
  lemma StepKeeps(r: Room, e: RoomEvent)
    requires RoomOk(r) && Enabled(r, e) && (e.Joins? ==> r.state != Closed)
    ensures RoomOk(Step(r, e))
  {
    match e
    case Joins(s, playerId, fighterId) => AttachKeeps(r, s, playerId, fighterId);
    case Says(s, msg) =>
      if r.state == Active && msg.Some? && msg.value.Input? {
        RelayInputKeeps(r, s, msg.value.frame, msg.value.input);
      } else if r.state == Active && msg.Some? && msg.value.Loadout? {
        SendKeepsSlots(r, Other(s), ServerLoadout(msg.value.loadout));
      }
    case Drops(s) =>
    case Closes(s) =>
      SendKeepsSlots(r, Other(s), ServerOpponentDisconnect);
      EndKeeps(SendIfReachable(r, Other(s), ServerOpponentDisconnect), LossOf(s, Disconnect, r.frameCount));
    case Forfeits(loser) => EndKeeps(r, LossOf(loser, Forfeit, 0));
    case Pings(t) =>
      SendKeepsSlots(r, 0, ServerPing(t));
      SendKeepsSlots(SendIfReachable(r, 0, ServerPing(t)), 1, ServerPing(t));
  }

  /** Once closed, a room relays, logs and ends nothing more, whatever happens but a join. */
  lemma ClosedIsQuiet(r: Room, e: RoomEvent)
    requires RoomOk(r) && r.state == Closed && Enabled(r, e) && !e.Joins?
    ensures Step(r, e) == r.(open := Step(r, e).open)
  {
  }

  /** The state test that `attach` leaves out would matter: joining a closed room with one slot
      taken makes it active again. The room manager has to keep closed rooms out of reach. */
  lemma AttachReopensClosedRoom(r: Room, s: Slot, playerId: string, fighterId: int)
    requires RoomOk(r) && r.state == Closed && r.slots[s].None?
    ensures Attach(r, s, playerId, fighterId).0.state == (if r.slots[Other(s)].Some? then Active else Closed)
  {
  }

  /** When the socket of slot s closes in a room that has not ended, the other slot, if it can be
      reached, is sent the disconnect notice and then the end, which it wins two rounds to none;
      slot s is sent nothing. */
  lemma CloseGivesTheOtherTheWin(r: Room, s: Slot)
    requires RoomOk(r) && r.state != Closed && Enabled(r, Closes(s))
    ensures var r', o := Step(r, Closes(s)), Other(s);
            && r'.state == Closed && |r'.ended| == 1 && r'.out[s] == r.out[s]
            && r'.ended[0].winnerSlot == o && r'.ended[0].reason == Disconnect
            && (if o == 0 then r'.ended[0].p1RoundsWon == 2 && r'.ended[0].p2RoundsWon == 0
                else r'.ended[0].p1RoundsWon == 0 && r'.ended[0].p2RoundsWon == 2)
            && r'.out[o] == r.out[o] + (if r.Reachable(o) then [ServerOpponentDisconnect,
                ServerEnd(r'.ended[0])] else [])
  {
  }

  // ----- The log of a room -----

  /** The input a message makes the room accept, if any. */
  function AcceptedBy(r: Room, e: RoomEvent): seq<Log.Event> {
    if r.state == Active && e.Says? && e.msg.Some? && e.msg.value.Input? && IsValidInput(e.msg.value.input)
    then [Log.Event(e.slot, e.msg.value.frame, e.msg.value.input)] else []
  }

  function StepAll(r: Room, es: seq<RoomEvent>): (r': Room)
    requires r.Shape()
    ensures r'.Shape()
    decreases |es|
  {
    if es == [] then r else Step(StepAll(r, es[..|es| - 1]), es[|es| - 1])
  }

  /** The valid inputs that reached the room while it was active, in order. */
  function Accepted(r: Room, es: seq<RoomEvent>): seq<Log.Event>
    requires r.Shape()
    decreases |es|
  {
    if es == [] then []
    else Accepted(r, es[..|es| - 1]) + AcceptedBy(StepAll(r, es[..|es| - 1]), es[|es| - 1])
  }

  lemma StepLogs(r: Room, e: RoomEvent)
    requires r.Shape()
    ensures AcceptedBy(r, e) == [] ==> Step(r, e).log == r.log && Step(r, e).frameCount == r.frameCount
    ensures AcceptedBy(r, e) != [] ==>
              Step(r, e).log == Log.Record(r.log, AcceptedBy(r, e)[0]) && Step(r, e).frameCount == r.frameCount + 1
  {
  }

  /** Whatever happens to a room, its input log is that of the valid inputs of its active time, so
      by LogIsRunCompression their run compression, and its frame counter is their number. */
  lemma {:induction false} LogIsOfTheAcceptedInputs(cfg: RoomConfig, es: seq<RoomEvent>)
    ensures StepAll(NewRoom(cfg), es).log == Log.RecordAll(Accepted(NewRoom(cfg), es))
    ensures StepAll(NewRoom(cfg), es).frameCount == |Accepted(NewRoom(cfg), es)|
    decreases |es|
  {
    if es != [] {
      var n, r := |es| - 1, NewRoom(cfg);
      LogIsOfTheAcceptedInputs(cfg, es[..n]);
      var before, now := Accepted(r, es[..n]), AcceptedBy(StepAll(r, es[..n]), es[n]);
      StepLogs(StepAll(r, es[..n]), es[n]);
      if now == [] {
        assert before + now == before;
      } else {
        assert (before + now)[..|before|] == before;
      }
    }
  }
}
