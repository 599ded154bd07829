/** What every run of a networked match keeps. */
module SessionProof {
  import opened Bytes
  import opened WsStream
  import opened Protocol
  import opened Session
  import RelayRoom
  import RoomManager

  // ----- Inputs as the relay may forward them -----

  /** The valid inputs among messages on their way to the relay, in order. */
  function UpInputs(up: seq<ClientMsg>): seq<RelayEntry>
    decreases |up|
  {
    if up == [] then []
    else
      var m := up[|up| - 1];
      UpInputs(up[..|up| - 1])
      + (if m.Input? && IsValidInput(m.input) then [RelayEntry(m.frame, m.input)] else [])
  }

  /** The valid inputs among those a client sent, in order. */
  function ValidInputs(sent: seq<RelayEntry>): seq<RelayEntry>
    decreases |sent|
  {
    if sent == [] then []
    else
      var e := sent[|sent| - 1];
      ValidInputs(sent[..|sent| - 1]) + (if IsValidInput(e.input) then [e] else [])
  }

  lemma {:induction false} UpInputsAppend(a: seq<ClientMsg>, b: seq<ClientMsg>)
    ensures UpInputs(a + b) == UpInputs(a) + UpInputs(b)
    decreases |b|
  {
    if b == [] {
      assert a + b == a;
    } else {
      assert (a + b)[..|a + b| - 1] == a + b[..|b| - 1];
      UpInputsAppend(a, b[..|b| - 1]);
    }
  }

  lemma UpInputsOne(m: ClientMsg)
    ensures UpInputs([m]) == if m.Input? && IsValidInput(m.input) then [RelayEntry(m.frame, m.input)] else []
  {
    assert [m][..0] == [];
  }

  lemma ValidInputsMore(sent: seq<RelayEntry>, e: RelayEntry)
    ensures ValidInputs(sent + [e]) == ValidInputs(sent) + if IsValidInput(e.input) then [e] else []
  {
    assert (sent + [e])[..|sent|] == sent;
  }

  // ----- The invariant -----

  /** The relay's side: what it has sent to a slot starts with the only waiting message, names no
      other slot in the start message, contains
      nothing of a match before the room is active and nothing after its end. */
  predicate OutOk(r: Room, s: Slot)
    requires r.Shape()
  {
    && (forall j :: 0 < j < |r.out[s]| ==> !r.out[s][j].ServerWaiting?)
    && (forall j :: 0 <= j < |r.out[s]| && r.out[s][j].ServerStart? ==> r.out[s][j].yourSlot == s)
    && (r.state == RelayRoom.Waiting ==> forall j :: 0 <= j < |r.out[s]| ==>
          r.out[s][j].ServerWaiting?)
    && (r.state != RelayRoom.Closed ==> forall j :: 0 <= j < |r.out[s]| ==> !r.out[s][j].ServerEnd?)
    && (forall j :: 0 <= j < |r.out[s]| - 1 ==> !r.out[s][j].ServerEnd?)
  }

  /** A client that is ready has read the start of the match; before that it sends nothing of it. */
  predicate PhaseOk(side: Side, out: seq<ServerMsg>) {
    var c := side.c;
    && side.read <= |out|
    && (c.link == NotDialed || c.link == Dialing ==> side.read == 0 && !c.wasReady)
    && (c.wasReady ==>
          (side.read >= 1 && c.net != Waiting && exists j :: 0 <= j < side.read && out[j].ServerStart?))
    && (c.net == Ready || c.net == Fighting ==> c.wasReady)
    && (c.lobby == PickingLoadout || c.lobby == InFight || c.loadoutSent || c.sent != [] ==> c.wasReady)
    && ((exists i :: 0 <= i < |side.up| && (side.up[i].Input? || side.up[i].Loadout?)) ==> c.wasReady)
  }

  /** The loadout a client has picked is the only one ever on its way to, or known to, the other. */
  predicate LoadoutOk(mine: Side, theirs: Side, outToThem: seq<ServerMsg>) {
    var c := mine.c;
    && (if c.loadoutSent then 1 <= c.myLoadout <= 2 else c.myLoadout == 0)
    && (forall i :: 0 <= i < |mine.up| && mine.up[i].Loadout? ==> c.loadoutSent && mine.up[i].loadout == c.myLoadout)
    && (forall j :: 0 <= j < |outToThem| && outToThem[j].ServerLoadout? ==>
          c.loadoutSent && outToThem[j].loadout == c.myLoadout)
    && (theirs.c.oppLoadout == -1 || (c.loadoutSent && theirs.c.oppLoadout == c.myLoadout))
  }

  /** The simulation was started with the two picked loadouts. */
  predicate SimOk(mine: Side, theirs: Side, s: Slot) {
    var c := mine.c;
    && (c.lobby == InFight ==> c.sim.Some?)
    && (c.sim.Some? ==>
          (c.loadoutSent && theirs.c.loadoutSent && c.oppLoadout == theirs.c.myLoadout
           && c.sim.value == LoadoutPair(s, c.myLoadout, theirs.c.myLoadout)))
  }

  /** Inputs of slot s: what was relayed to the other slot is a prefix of the valid inputs sent,
      and while the other socket is open in an active room the rest is still in the channel. */
  predicate InputOk(side: Side, r: Room, o: Slot)
    requires r.Shape()
  {
    var relayed, valid := RelayRoom.RelayedEntries(r.out[o]), ValidInputs(side.c.sent);
    && relayed <= valid
    && (r.state == RelayRoom.Active && r.open[o] ==>
          (relayed + UpInputs(side.up) <= valid && (!side.upCut ==> relayed + UpInputs(side.up) == valid)))
  }

  predicate DeliveredOk(side: Side, out: seq<ServerMsg>) {
    side.read <= |out| && side.c.confirmed == ClientEntries(RelayRoom.RelayedEntries(out[..side.read]))
  }

  predicate FramesOk(c: Client) {
    && c.frame < 0x8000_0000
    && (forall i :: 0 <= i < |c.sent| ==> c.sent[i].frame <= c.frame)
    && (forall i, j :: 0 <= i < j < |c.sent| ==> c.sent[i].frame < c.sent[j].frame)
  }

  /** Everything about slot s: its own side, the other side and the room. */
  predicate SlotInv(mine: Side, theirs: Side, room: Room, s: Slot)
    requires room.Shape()
  {
    && OutOk(room, s)
    && PhaseOk(mine, room.out[s])
    && LoadoutOk(mine, theirs, room.out[Other(s)])
    && SimOk(mine, theirs, s)
    && InputOk(mine, room, Other(s))
    && DeliveredOk(mine, room.out[s])
    && FramesOk(mine.c)
  }

  predicate Inv(st: System) {
    && Shape(st) && RelayRoom.RoomOk(st.room)
    && SlotInv(st.sides[0], st.sides[1], st.room, 0)
    && SlotInv(st.sides[1], st.sides[0], st.room, 1)
  }

  lemma InvAt(st: System, s: Slot)
    requires Inv(st)
    ensures RelayRoom.RoomOk(st.room)
    ensures SlotInv(st.sides[s], st.sides[Other(s)], st.room, s)
    ensures SlotInv(st.sides[Other(s)], st.sides[s], st.room, Other(s))
  {
    assert s == 0 || s == 1;
  }

  lemma InitialInv(cfg: RelayRoom.RoomConfig)
    ensures Inv(Initial(cfg))
  {
  }

  // ----- Client actions -----

  lemma {:induction false} ClientEntriesAppend(a: seq<RelayEntry>, b: seq<RelayEntry>)
    ensures ClientEntries(a + b) == ClientEntries(a) + ClientEntries(b)
    decreases |b|
  {
    if b == [] {
      assert a + b == a;
    } else {
      assert (a + b)[..|a + b| - 1] == a + b[..|b| - 1];
      ClientEntriesAppend(a, b[..|b| - 1]);
    }
  }

  lemma DeliveredMore(side: Side, out: seq<ServerMsg>)
    requires DeliveredOk(side, out) && side.read < |out|
    ensures DeliveredOk(side.(c := OnMessage(side.c, out[side.read]), read := side.read + 1), out)
  {
    var k := side.read;
    assert out[..k + 1][..k] == out[..k];
    var m := out[k];
    if m.ServerRelay? {
      ClientEntriesAppend(RelayRoom.RelayedEntries(out[..k]), m.entries);
    }
    var before := RelayRoom.RelayedEntries(out[..k]);
    assert before + [] == before;
  }

  lemma PhaseKept(side: Side, a: ClientAction, s: Slot, out: seq<ServerMsg>)
    requires PhaseOk(side, out) && CanDo(side, a, |out|)
    requires forall j :: 0 < j < |out| ==> !out[j].ServerWaiting?
    ensures PhaseOk(SideStep(side, a, s, out), out)
  {
  }

  /** No action changes a loadout once it is sent. */
  lemma OwnLoadoutKept(mine: Side, theirs: Side, a: ClientAction, s: Slot, out: seq<ServerMsg>,
      outToThem: seq<ServerMsg>)
    requires LoadoutOk(mine, theirs, outToThem) && CanDo(mine, a, |out|)
    ensures LoadoutOk(SideStep(mine, a, s, out), theirs, outToThem)
  {
    if a.Pick? {
      var k := a.loadout;
      assert forall i :: 0 <= i < |mine.up + [Loadout(k)]| ==>
          (mine.up + [Loadout(k)])[i] == if i < |mine.up| then mine.up[i] else Loadout(k);
    }
  }

  /** What a client learns of the other's loadout is what the other picked. */
  lemma LearnedLoadoutKept(mine: Side, theirs: Side, a: ClientAction, s: Slot, out: seq<ServerMsg>)
    requires LoadoutOk(theirs, mine, out) && CanDo(mine, a, |out|)
    ensures LoadoutOk(theirs, SideStep(mine, a, s, out), out)
  {
    assert SideStep(mine, a, s, out).c.oppLoadout != mine.c.oppLoadout ==>
        a.Dial? || (a.ReadNext? && out[mine.read].ServerLoadout?);
  }

  lemma OwnSimKept(mine: Side, theirs: Side, a: ClientAction, s: Slot, out: seq<ServerMsg>, outToThem: seq<ServerMsg>)
    requires SimOk(mine, theirs, s) && LoadoutOk(mine, theirs, outToThem) && LoadoutOk(theirs, mine, out)
    requires PhaseOk(mine, out) && CanDo(mine, a, |out|)
    ensures SimOk(SideStep(mine, a, s, out), theirs, s)
  {
    var mine' := SideStep(mine, a, s, out);
    if mine.c.sim.Some? {
      assert !a.Dial? && !a.Pick?;
      if a.ReadNext? {
        LearnedLoadoutKept(mine, theirs, a, s, out);
        assert mine'.c.oppLoadout != -1;
      }
    }
  }

  lemma TheirSimKept(mine: Side, theirs: Side, a: ClientAction, s: Slot, out: seq<ServerMsg>)
    requires SimOk(theirs, mine, Other(s)) && CanDo(mine, a, |out|)
    ensures SimOk(theirs, SideStep(mine, a, s, out), Other(s))
  {
    var mine' := SideStep(mine, a, s, out);
    assert mine.c.loadoutSent ==> mine'.c.loadoutSent && mine'.c.myLoadout == mine.c.myLoadout;
  }

  lemma NotAnInput(up: seq<ClientMsg>, m: ClientMsg)
    requires !m.Input?
    ensures UpInputs(up + [m]) == UpInputs(up)
  {
    UpInputsOne(m);
    UpInputsAppend(up, [m]);
  }

  /** Channel contents and inputs sent are all that matters for delivery. */
  lemma SameInputs(side: Side, side': Side, r: Room, o: Slot)
    requires r.Shape() && InputOk(side, r, o)
    requires side'.c.sent == side.c.sent && UpInputs(side'.up) == UpInputs(side.up) && side'.upCut == side.upCut
    ensures InputOk(side', r, o)
  {
  }

  lemma LoseUpKeepsInputs(side: Side, kept: nat, r: Room, o: Slot)
    requires r.Shape() && InputOk(side, r, o) && kept <= |side.up|
    ensures InputOk(side.(up := side.up[..kept], upCut := true), r, o)
  {
    assert side.up == side.up[..kept] + side.up[kept..];
    UpInputsAppend(side.up[..kept], side.up[kept..]);
  }

  /** One more valid input: sent and in the channel, or sent and lost with the channel's tail. */
  lemma OneMoreInput(relayed: seq<RelayEntry>, up: seq<RelayEntry>, valid: seq<RelayEntry>, more: seq<RelayEntry>)
    ensures relayed <= valid ==> relayed <= valid + more
    ensures relayed + up <= valid ==> relayed + up <= valid + more
    ensures relayed + up == valid ==> relayed + (up + more) == valid + more
  {
    if relayed + up == valid {
      assert relayed + (up + more) == relayed + up + more;
    }
  }

  lemma InputSent(side: Side, side': Side, e: RelayEntry, m: ClientMsg, r: Room, o: Slot)
    requires r.Shape() && InputOk(side, r, o)
    requires m.Input? && m.frame == e.frame && m.input == e.input
    requires side'.c.sent == side.c.sent + [e] && side'.upCut == side.upCut
    requires side'.up == if side.upCut then side.up else side.up + [m]
    ensures InputOk(side', r, o)
  {
    ValidInputsMore(side.c.sent, e);
    UpInputsOne(m);
    UpInputsAppend(side.up, [m]);
    OneMoreInput(RelayRoom.RelayedEntries(r.out[o]), UpInputs(side.up), ValidInputs(side.c.sent), UpInputs([m]));
  }

  lemma FightKeepsInputs(side: Side, input: uint16, r: Room, o: Slot)
    requires r.Shape() && InputOk(side, r, o) && side.c.frame + 1 < 0x8000_0000
    ensures InputOk(FightFrame(side, input), r, o)
  {
    var side' := FightFrame(side, input);
    if side'.c.sent == side.c.sent {
      SameInputs(side, side', r, o);
    } else {
      var f := side.c.frame + 1;
      InputSent(side, side', RelayEntry(f, input), Input(f % 0x1_0000, f, input), r, o);
    }
  }

  lemma InputKept(side: Side, a: ClientAction, s: Slot, out: seq<ServerMsg>, r: Room)
    requires r.Shape() && InputOk(side, r, Other(s)) && CanDo(side, a, |out|)
    ensures InputOk(SideStep(side, a, s, out), r, Other(s))
  {
    if a.FightTick? {
      FightKeepsInputs(side, a.input, r, Other(s));
    } else if a.LoseUp? {
      LoseUpKeepsInputs(side, a.kept, r, Other(s));
    } else {
      SendsNoInput(side, a, s, out);
      SameInputs(side, SideStep(side, a, s, out), r, Other(s));
    }
  }

  lemma SendsNoInput(side: Side, a: ClientAction, s: Slot, out: seq<ServerMsg>)
    requires CanDo(side, a, |out|) && !a.FightTick? && !a.LoseUp?
    ensures var side' := SideStep(side, a, s, out);
            side'.c.sent == side.c.sent && UpInputs(side'.up) == UpInputs(side.up) && side'.upCut == side.upCut
  {
    if a.Upgrade? {
      NotAnInput(side.up, Join(side.join));
    } else if a.Pick? {
      NotAnInput(side.up, Loadout(a.loadout));
    } else if a.ReadNext? {
      NotAnInput(side.up, Pong);
    }
  }

  lemma DeliveredKept(side: Side, a: ClientAction, s: Slot, out: seq<ServerMsg>)
    requires DeliveredOk(side, out) && CanDo(side, a, |out|)
    ensures DeliveredOk(SideStep(side, a, s, out), out)
  {
    if a.ReadNext? {
      DeliveredMore(side, out);
    }
  }

  lemma FramesKept(side: Side, a: ClientAction, s: Slot, out: seq<ServerMsg>)
    requires FramesOk(side.c) && CanDo(side, a, |out|)
    ensures FramesOk(SideStep(side, a, s, out).c)
  {
    if a.FightTick? {
      FightKeepsFrames(side, a.input);
    } else {
      var c' := SideStep(side, a, s, out).c;
      assert c'.sent == side.c.sent && side.c.frame <= c'.frame < 0x8000_0000;
    }
  }

  lemma FightKeepsFrames(side: Side, input: uint16)
    requires FramesOk(side.c) && side.c.frame + 1 < 0x8000_0000
    ensures FramesOk(FightFrame(side, input).c)
  {
    var c, c' := side.c, FightFrame(side, input).c;
    assert c'.sent == c.sent || c'.sent == c.sent + [RelayEntry(c'.frame, input)];
  }

  lemma ActorKept(mine: Side, theirs: Side, room: Room, a: ClientAction, s: Slot)
    requires room.Shape() && SlotInv(mine, theirs, room, s) && CanDo(mine, a, |room.out[s]|)
    requires LoadoutOk(theirs, mine, room.out[s])
    ensures SlotInv(SideStep(mine, a, s, room.out[s]), theirs, room, s)
  {
    var out := room.out[s];
    PhaseKept(mine, a, s, out);
    OwnLoadoutKept(mine, theirs, a, s, out, room.out[Other(s)]);
    OwnSimKept(mine, theirs, a, s, out, room.out[Other(s)]);
    InputKept(mine, a, s, out, room);
    DeliveredKept(mine, a, s, out);
    FramesKept(mine, a, s, out);
  }

  lemma OtherKept(mine: Side, theirs: Side, room: Room, a: ClientAction, s: Slot)
    requires room.Shape() && SlotInv(theirs, mine, room, Other(s)) && CanDo(mine, a, |room.out[s]|)
    ensures SlotInv(theirs, SideStep(mine, a, s, room.out[s]), room, Other(s))
  {
    LearnedLoadoutKept(mine, theirs, a, s, room.out[s]);
    TheirSimKept(mine, theirs, a, s, room.out[s]);
  }

  lemma SidesKept(mine: Side, theirs: Side, room: Room, a: ClientAction, s: Slot, mine': Side)
    requires room.Shape() && SlotInv(mine, theirs, room, s) && SlotInv(theirs, mine, room, Other(s))
    requires CanDo(mine, a, |room.out[s]|) && mine' == SideStep(mine, a, s, room.out[s])
    ensures SlotInv(mine', theirs, room, s) && SlotInv(theirs, mine', room, Other(s))
  {
    ActorKept(mine, theirs, room, a, s);
    OtherKept(mine, theirs, room, a, s);
  }

  lemma InvOf(st: System, st': System, mine: Side, theirs: Side, s: Slot)
    requires Shape(st) && st'.sides == st.sides[s := mine] && theirs == st.sides[Other(s)] && RelayRoom.RoomOk(st'.room)
    requires SlotInv(mine, theirs, st'.room, s) && SlotInv(theirs, mine, st'.room, Other(s))
    ensures Inv(st')
  {
  }

  lemma ClientActionKeeps(st: System, s: Slot, a: ClientAction)
    requires Inv(st) && Enabled(st, ByClient(s, a))
    ensures Inv(Step(st, ByClient(s, a)))
  {
    var mine, theirs := st.sides[s], st.sides[Other(s)];
    assert CanDo(mine, a, |st.room.out[s]|);
    InvAt(st, s);
    var mine' := SideStep(mine, a, s, st.room.out[s]);
    SidesKept(mine, theirs, st.room, a, s, mine');
    InvOf(st, Step(st, ByClient(s, a)), mine', theirs, s);
  }

  // ----- Relay actions -----

  /** Nothing of the inputs, loadouts or the start of the match. */
  predicate Silent(ms: seq<ServerMsg>) {
    forall j :: 0 <= j < |ms| ==>
      ms[j].ServerOpponentDisconnect? || ms[j].ServerEnd? || ms[j].ServerPing?
  }

  /** r' has been sent more than r, and only silent messages. */
  predicate GrowsSilently(r: Room, r': Room, s: Slot)
    requires r.Shape() && r'.Shape()
  {
    r.out[s] <= r'.out[s] && Silent(r'.out[s][|r.out[s]|..])
  }

  lemma {:induction false} SilentRelaysNothing(ms: seq<ServerMsg>)
    requires Silent(ms)
    ensures RelayRoom.RelayedEntries(ms) == []
    decreases |ms|
  {
    if ms != [] {
      SilentRelaysNothing(ms[..|ms| - 1]);
    }
  }

  /** More messages after those already read change neither the phase nor what was delivered. */
  lemma GrowthKeeps(side: Side, out: seq<ServerMsg>, out': seq<ServerMsg>)
    requires PhaseOk(side, out) && DeliveredOk(side, out) && out <= out'
    ensures PhaseOk(side, out') && DeliveredOk(side, out')
  {
    assert out'[..side.read] == out[..side.read];
    if side.c.wasReady {
      var j :| 0 <= j < side.read && out[j].ServerStart?;
      assert out'[j].ServerStart?;
    }
  }

  lemma GrowsTwice(r: Room, r1: Room, r2: Room, s: Slot)
    requires r.Shape() && r1.Shape() && r2.Shape() && GrowsSilently(r, r1, s) && GrowsSilently(r1, r2, s)
    ensures GrowsSilently(r, r2, s)
  {
    var n, n1 := |r.out[s]|, |r1.out[s]|;
    assert r2.out[s][n..] == r1.out[s][n..] + r2.out[s][n1..];
  }

  /** A disconnect notice or a ping, only in an active room. */
  lemma SilentSend(r: Room, to: Slot, m: ServerMsg, s: Slot)
    requires r.Shape() && r.state == RelayRoom.Active && OutOk(r, s)
    requires m.ServerOpponentDisconnect? || m.ServerPing?
    ensures var r' := RelayRoom.SendIfReachable(r, to, m);
            GrowsSilently(r, r', s) && OutOk(r', s) && r' == r.(out := r'.out)
  {
  }

  lemma EndGrows(r: Room, p: RelayRoom.EndPayload, s: Slot)
    requires r.Shape() && OutOk(r, s)
    ensures GrowsSilently(r, RelayRoom.End(r, p), s) && OutOk(RelayRoom.End(r, p), s)
    ensures RelayRoom.End(r, p).state == RelayRoom.Closed && RelayRoom.End(r, p).open == r.open
  {
    if r.state != RelayRoom.Closed {
      var r' := RelayRoom.End(r, p);
      assert r'.out[s] == if r.Reachable(s) then r.out[s] + [RelayRoom.ServerEnd(p)] else r.out[s];
    }
  }

  lemma QuietEventGrows(r: Room, e: RelayRoom.RoomEvent, s: Slot)
    requires RelayRoom.RoomOk(r) && RelayRoom.Enabled(r, e) && QuietEvent(e) && OutOk(r, s)
    ensures var r' := RelayRoom.Step(r, e);
            && GrowsSilently(r, r', s) && OutOk(r', s)
            && (r'.state == RelayRoom.Active ==> r.state == RelayRoom.Active)
            && (r'.open[s] ==> r.open[s])
  {
    if e.Closes? && r.state != RelayRoom.Closed {
      var o := Other(e.slot);
      var told := RelayRoom.SendIfReachable(r, o, RelayRoom.ServerOpponentDisconnect);
      if r.state == RelayRoom.Active {
        SilentSend(r, o, RelayRoom.ServerOpponentDisconnect, s);
      } else {
        assert told == r;
      }
      EndGrows(told, RelayRoom.LossOf(e.slot, RelayRoom.Disconnect, r.frameCount), s);
      GrowsTwice(r, told, RelayRoom.Step(r, e), s);
    } else if e.Forfeits? {
      EndGrows(r, RelayRoom.LossOf(e.loser, RelayRoom.Forfeit, 0), s);
    } else if e.Pings? {
      var m := RelayRoom.ServerPing(e.timestamp);
      SilentSend(r, 0, m, s);
      var r1 := RelayRoom.SendIfReachable(r, 0, m);
      SilentSend(r1, 1, m, s);
      GrowsTwice(r, r1, RelayRoom.Step(r, e), s);
    }
  }

  /** A step of the room alone keeps everything about both slots. */
  lemma QuietActionKeeps(st: System, e: RelayRoom.RoomEvent)
    requires Inv(st) && RelayRoom.Enabled(st.room, e) && QuietEvent(e)
    ensures Inv(st.(room := RelayRoom.Step(st.room, e)))
  {
    RelayRoom.StepKeeps(st.room, e);
    QuietEventGrows(st.room, e, 0);
    QuietEventGrows(st.room, e, 1);
    QuietSlotKeeps(st.sides[0], st.sides[1], st.room, RelayRoom.Step(st.room, e), 0);
    QuietSlotKeeps(st.sides[1], st.sides[0], st.room, RelayRoom.Step(st.room, e), 1);
  }

  lemma SilentGrowthKeepsLoadout(mine: Side, theirs: Side, out: seq<ServerMsg>, out': seq<ServerMsg>)
    requires LoadoutOk(mine, theirs, out) && out <= out' && Silent(out'[|out|..])
    ensures LoadoutOk(mine, theirs, out')
  {
    assert forall j :: |out| <= j < |out'| ==> out'[j] == out'[|out|..][j - |out|];
  }

  lemma SilentGrowthKeepsInput(side: Side, r: Room, r': Room, o: Slot)
    requires r.Shape() && r'.Shape() && InputOk(side, r, o) && GrowsSilently(r, r', o)
    requires r'.state == RelayRoom.Active && r'.open[o] ==> r.state == RelayRoom.Active && r.open[o]
    ensures InputOk(side, r', o)
  {
    var out, tail := r.out[o], r'.out[o][|r.out[o]|..];
    SilentRelaysNothing(tail);
    RelayRoom.RelayedAppend(out, tail);
    assert r'.out[o] == out + tail;
    assert RelayRoom.RelayedEntries(out) + [] == RelayRoom.RelayedEntries(out);
  }

  lemma QuietSlotKeeps(mine: Side, theirs: Side, r: Room, r': Room, s: Slot)
    requires r.Shape() && SlotInv(mine, theirs, r, s) && r'.Shape() && OutOk(r', s)
    requires GrowsSilently(r, r', s) && GrowsSilently(r, r', Other(s))
    requires r'.state == RelayRoom.Active ==> r.state == RelayRoom.Active
    requires r'.open[Other(s)] ==> r.open[Other(s)]
    ensures SlotInv(mine, theirs, r', s)
  {
    var o := Other(s);
    GrowthKeeps(mine, r.out[s], r'.out[s]);
    SilentGrowthKeepsLoadout(mine, theirs, r.out[o], r'.out[o]);
    SilentGrowthKeepsInput(mine, r, r', o);
  }

  // ----- The relay reads a message -----

  /** The messages of a client that has read nothing of the match carry no input. */
  lemma {:induction false} NoInputsYet(up: seq<ClientMsg>)
    requires forall i :: 0 <= i < |up| ==> !up[i].Input?
    ensures UpInputs(up) == []
    decreases |up|
  {
    if up != [] {
      NoInputsYet(up[..|up| - 1]);
    }
  }

  lemma {:induction false} OnlyWaitingRelaysNothing(ms: seq<ServerMsg>)
    requires forall j :: 0 <= j < |ms| ==> ms[j].ServerWaiting? || ms[j].ServerStart?
    ensures RelayRoom.RelayedEntries(ms) == []
    decreases |ms|
  {
    if ms != [] {
      OnlyWaitingRelaysNothing(ms[..|ms| - 1]);
    }
  }

  /** Taking the first message off a channel. */
  lemma PopInputs(up: seq<ClientMsg>)
    requires up != []
    ensures UpInputs(up) == UpInputs([up[0]]) + UpInputs(up[1..])
  {
    assert up == [up[0]] + up[1..];
    UpInputsAppend([up[0]], up[1..]);
  }

  /** What attaching a socket to a free slot sends to slot s. */
  lemma AttachSends(r: Room, r': Room, t: Slot, playerId: string, fighterId: int, s: Slot)
    requires RelayRoom.RoomOk(r) && r.state == RelayRoom.Waiting && r.slots[t].None?
    requires r' == RelayRoom.Attach(r, t, playerId, fighterId).0
    ensures r'.out[s] == r.out[s] + (if t == s then [RelayRoom.ServerWaiting] else [])
                         + (if r'.state == RelayRoom.Active && r'.open[s] then [RelayRoom.ServerStart(s)] else [])
    ensures r'.state == RelayRoom.Waiting || r'.state == RelayRoom.Active
    ensures t == s ==> r.out[s] == []
  {
    var sent := if t == s then [RelayRoom.ServerWaiting] else [];
    assert r.out[s] + [] == r.out[s] && r.out[s] + sent + [] == r.out[s] + sent;
  }

  lemma AttachEffect(r: Room, t: Slot, playerId: string, fighterId: int, s: Slot)
    requires RelayRoom.RoomOk(r) && r.state == RelayRoom.Waiting && r.slots[t].None? && OutOk(r, s)
    ensures var r' := RelayRoom.Attach(r, t, playerId, fighterId).0;
            && OutOk(r', s) && r.out[s] <= r'.out[s]
            && (forall j :: 0 <= j < |r'.out[s]| ==> r'.out[s][j].ServerWaiting? || r'.out[s][j].ServerStart?)
  {
    AttachSends(r, RelayRoom.Attach(r, t, playerId, fighterId).0, t, playerId, fighterId, s);
  }

  /** Before the match is active a client has sent nothing of it. */
  lemma NothingBeforeTheMatch(side: Side, r: Room, s: Slot)
    requires r.Shape() && r.state == RelayRoom.Waiting && OutOk(r, s) && PhaseOk(side, r.out[s])
    ensures !side.c.wasReady && side.c.sent == [] && UpInputs(side.up) == []
  {
    NoInputsYet(side.up);
  }

  /** A join keeps everything about slot s, whoever joined. */
  lemma AttachSlotKeeps(mine: Side, theirs: Side, r: Room, t: Slot, playerId: string, fighterId: int, s: Slot)
    requires RelayRoom.RoomOk(r) && SlotInv(mine, theirs, r, s) && OutOk(r, Other(s))
    requires r.state == RelayRoom.Waiting && r.slots[t].None?
    ensures SlotInv(mine, theirs, RelayRoom.Attach(r, t, playerId, fighterId).0, s)
  {
    var r', o := RelayRoom.Attach(r, t, playerId, fighterId).0, Other(s);
    AttachEffect(r, t, playerId, fighterId, s);
    AttachEffect(r, t, playerId, fighterId, o);
    GrowthKeeps(mine, r.out[s], r'.out[s]);
    NothingBeforeTheMatch(mine, r, s);
    OnlyWaitingRelaysNothing(r'.out[o]);
  }

  /** Reading a message that is not an input takes nothing from what is still to be relayed. */
  lemma PopKeeps(mine: Side, theirs: Side, r: Room, s: Slot)
    requires r.Shape() && SlotInv(mine, theirs, r, s) && mine.up != []
    requires r.state == RelayRoom.Active && r.open[Other(s)] ==> UpInputs([mine.up[0]]) == []
    ensures SlotInv(mine.(up := mine.up[1..]), theirs, r, s)
  {
    PopInputs(mine.up);
    assert UpInputs([mine.up[0]]) == [] ==> [] + UpInputs(mine.up[1..]) == UpInputs(mine.up[1..]);
  }

  /** How the room answers a message of slot s in an active match. */
  lemma RelayEffect(r: Room, s: Slot, m: ClientMsg)
    requires RelayRoom.RoomOk(r) && r.state == RelayRoom.Active
    ensures var r', o := RelayRoom.HandleMessage(r, s, Some(m)), Other(s);
            && r'.state == r.state && r'.open == r.open && r'.out[s] == r.out[s]
            && r'.out[o] == r.out[o]
               + (if m.Input? && IsValidInput(m.input) && r.open[o]
                  then [RelayRoom.ServerRelay(r.slots[o].value.seqNo, [RelayEntry(m.frame, m.input)])]
                  else if m.Loadout? && r.open[o] then [RelayRoom.ServerLoadout(m.loadout)] else [])
  {
    var o := Other(s);
    if m.Input? && IsValidInput(m.input) && r.open[o] {
      var e := RelayEntry(m.frame, m.input);
      var n := r.slots[o].value.seqNo;
      assert [e][..1] == [e] && [e][1..] == [] && [] + [e] == [e];
      assert RelayRoom.Batches(n, [e]) == [RelayRoom.ServerRelay(n, [e])];
    }
  }

  /** What the relay forwards of an input is what it takes off the channel. */
  lemma SpeakerInput(mine: Side, r: Room, s: Slot)
    requires RelayRoom.RoomOk(r) && InputOk(mine, r, Other(s)) && mine.up != [] && r.state == RelayRoom.Active
    ensures InputOk(mine.(up := mine.up[1..]), RelayRoom.HandleMessage(r, s, Some(mine.up[0])), Other(s))
  {
    var m, o := mine.up[0], Other(s);
    var r' := RelayRoom.HandleMessage(r, s, Some(m));
    RelayEffect(r, s, m);
    PopInputs(mine.up);
    UpInputsOne(m);
    var added := r'.out[o][|r.out[o]|..];
    assert r'.out[o] == r.out[o] + added;
    RelayRoom.RelayedAppend(r.out[o], added);
    RelayedOne(added);
    MoveInput(RelayRoom.RelayedEntries(r.out[o]), UpInputs([m]), UpInputs(mine.up[1..]));
  }

  lemma MoveInput(relayed: seq<RelayEntry>, first: seq<RelayEntry>, rest: seq<RelayEntry>)
    ensures relayed + (first + rest) == relayed + first + rest && relayed + [] == relayed
    ensures [] + rest == rest
  {
  }

  /** The room still active, and more messages to slot o, none a waiting, start or end message. */
  predicate GrowsInMatch(r: Room, r': Room, o: Slot)
    requires r.Shape() && r'.Shape()
  {
    && r.state == RelayRoom.Active && r'.state == RelayRoom.Active && r'.open == r.open
    && r.out[o] <= r'.out[o] && r'.out[Other(o)] == r.out[Other(o)]
    && forall j :: |r.out[o]| <= j < |r'.out[o]| ==>
         !r'.out[o][j].ServerWaiting? && !r'.out[o][j].ServerStart? && !r'.out[o][j].ServerEnd?
  }

  lemma SpeakerGrows(mine: Side, theirs: Side, r: Room, r': Room, s: Slot)
    requires r.Shape() && r'.Shape() && GrowsInMatch(r, r', Other(s)) && mine.up != []
    requires SlotInv(mine, theirs, r, s) && InputOk(mine.(up := mine.up[1..]), r', Other(s))
    requires forall j :: |r.out[Other(s)]| <= j < |r'.out[Other(s)]| && r'.out[Other(s)][j].ServerLoadout? ==>
               mine.up[0].Loadout? && mine.up[0].loadout == r'.out[Other(s)][j].loadout
    ensures SlotInv(mine.(up := mine.up[1..]), theirs, r', s)
  {
  }

  /** Handling a message in a match only adds to what the other slot is sent, and a loadout only if
      the message was that loadout. */
  lemma HandledGrows(r: Room, r': Room, s: Slot, m: ClientMsg)
    requires RelayRoom.RoomOk(r) && r.state == RelayRoom.Active && r' == RelayRoom.HandleMessage(r, s, Some(m))
    ensures r'.Shape() && GrowsInMatch(r, r', Other(s))
    ensures forall j :: |r.out[Other(s)]| <= j < |r'.out[Other(s)]| && r'.out[Other(s)][j].ServerLoadout? ==>
              m.Loadout? && m.loadout == r'.out[Other(s)][j].loadout
  {
    RelayEffect(r, s, m);
  }

  lemma SpeakerKept(mine: Side, theirs: Side, r: Room, r': Room, s: Slot)
    requires RelayRoom.RoomOk(r) && SlotInv(mine, theirs, r, s) && mine.up != [] && r.state == RelayRoom.Active
    requires r' == RelayRoom.HandleMessage(r, s, Some(mine.up[0]))
    ensures SlotInv(mine.(up := mine.up[1..]), theirs, r', s)
  {
    SpeakerInput(mine, r, s);
    HandledGrows(r, r', s, mine.up[0]);
    SpeakerGrows(mine, theirs, r, r', s);
  }

  lemma RelayedOne(ms: seq<ServerMsg>)
    requires |ms| <= 1
    ensures RelayRoom.RelayedEntries(ms) == if ms != [] && ms[0].ServerRelay? then ms[0].entries else []
  {
    if ms != [] {
      assert ms[..0] == [];
    }
  }

  lemma ListenerGrows(mine: Side, theirs: Side, r: Room, r': Room, o: Slot)
    requires r.Shape() && r'.Shape() && GrowsInMatch(r, r', o)
    requires SlotInv(theirs, mine, r, o) && mine.up != []
    ensures SlotInv(theirs, mine.(up := mine.up[1..]), r', o)
  {
    GrowthKeeps(theirs, r.out[o], r'.out[o]);
  }

  /** The listener: more messages, none of them about its own inputs or loadout. */
  lemma ListenerKept(mine: Side, theirs: Side, r: Room, r': Room, s: Slot)
    requires RelayRoom.RoomOk(r) && SlotInv(theirs, mine, r, Other(s)) && mine.up != [] && r.state == RelayRoom.Active
    requires r' == RelayRoom.HandleMessage(r, s, Some(mine.up[0]))
    ensures SlotInv(theirs, mine.(up := mine.up[1..]), r', Other(s))
  {
    HandledGrows(r, r', s, mine.up[0]);
    ListenerGrows(mine, theirs, r, r', Other(s));
  }

  /** A join message changes nothing, or attaches a free slot of a room that has not started. */
  predicate JoinOutcome(r: Room, info: JoinInfo, r': Room)
    requires r.Shape()
  {
    var fighter := if info.slot == 0 then r.cfg.p1Fighter else r.cfg.p2Fighter;
    r' == r || (r.state == RelayRoom.Waiting && r.slots[info.slot].None?
                && r' == RelayRoom.Attach(r, info.slot, info.playerId, fighter).0)
  }

  lemma JoinAttaches(r: Room, info: JoinInfo)
    requires RelayRoom.RoomOk(r)
    ensures JoinOutcome(r, info, RoomManager.JoinIn(Table(r), Some(Join(info))).0.rooms[0])
  {
  }

  /** A join that attaches keeps everything about both slots. */
  lemma AttachBothKeep(mine: Side, theirs: Side, r: Room, info: JoinInfo, s: Slot)
    requires RelayRoom.RoomOk(r) && r.state == RelayRoom.Waiting && r.slots[info.slot].None?
    requires SlotInv(mine, theirs, r, s) && SlotInv(theirs, mine, r, Other(s))
    ensures var fighter := if info.slot == 0 then r.cfg.p1Fighter else r.cfg.p2Fighter;
            var r' := RelayRoom.Attach(r, info.slot, info.playerId, fighter).0;
            RelayRoom.RoomOk(r') && SlotInv(mine, theirs, r', s) && SlotInv(theirs, mine, r', Other(s))
  {
    var fighter := if info.slot == 0 then r.cfg.p1Fighter else r.cfg.p2Fighter;
    RelayRoom.AttachKeeps(r, info.slot, info.playerId, fighter);
    AttachSlotKeeps(mine, theirs, r, info.slot, info.playerId, fighter, s);
    AttachSlotKeeps(theirs, mine, r, info.slot, info.playerId, fighter, Other(s));
  }

  /** A join, whether or not it attaches. */
  lemma JoinBothKeep(mine: Side, theirs: Side, r: Room, info: JoinInfo, r': Room, s: Slot)
    requires RelayRoom.RoomOk(r) && SlotInv(mine, theirs, r, s) && SlotInv(theirs, mine, r, Other(s))
    requires JoinOutcome(r, info, r')
    ensures RelayRoom.RoomOk(r') && SlotInv(mine, theirs, r', s) && SlotInv(theirs, mine, r', Other(s))
  {
    if r' != r {
      AttachBothKeep(mine, theirs, r, info, s);
    }
  }

  /** Taking a join off the channel. */
  lemma JoinPops(before: Side, theirs: Side, r: Room, s: Slot)
    requires r.Shape() && SlotInv(before, theirs, r, s) && SlotInv(theirs, before, r, Other(s))
    requires before.up != [] && before.up[0].Join?
    ensures var mine := before.(up := before.up[1..]);
            SlotInv(mine, theirs, r, s) && SlotInv(theirs, mine, r, Other(s))
  {
    UpInputsOne(before.up[0]);
    PopKeeps(before, theirs, r, s);
    OthersPopKeeps(before, theirs, r, s);
  }

  lemma ReadJoinKeeps(st: System, s: Slot)
    requires Inv(st) && Enabled(st, RelayReads(s)) && st.sides[s].up[0].Join?
    ensures Inv(RelayReadsMessage(st, s))
  {
    var before, theirs := st.sides[s], st.sides[Other(s)];
    var r' := RelayReadsMessage(st, s).room;
    InvAt(st, s);
    assert JoinOutcome(st.room, before.up[0].info, r') by {
      JoinAttaches(st.room, before.up[0].info);
    }
    JoinPops(before, theirs, st.room, s);
    JoinBothKeep(before.(up := before.up[1..]), theirs, st.room, before.up[0].info, r', s);
    InvOf(st, RelayReadsMessage(st, s), before.(up := before.up[1..]), theirs, s);
  }

  lemma OthersPopKeeps(mine: Side, theirs: Side, r: Room, s: Slot)
    requires r.Shape() && SlotInv(theirs, mine, r, Other(s)) && mine.up != []
    ensures SlotInv(theirs, mine.(up := mine.up[1..]), r, Other(s))
  {
  }

  lemma ReadMessageKeeps(st: System, s: Slot)
    requires Inv(st) && Enabled(st, RelayReads(s)) && !st.sides[s].up[0].Join?
    ensures Inv(RelayReadsMessage(st, s))
  {
    var before, theirs := st.sides[s], st.sides[Other(s)];
    var r' := RelayReadsMessage(st, s).room;
    InvAt(st, s);
    RelayRoom.StepKeeps(st.room, RelayRoom.Says(s, Some(before.up[0])));
    if st.room.state == RelayRoom.Active {
      SpeakerKept(before, theirs, st.room, r', s);
      ListenerKept(before, theirs, st.room, r', s);
    } else {
      PopKeeps(before, theirs, st.room, s);
      OthersPopKeeps(before, theirs, st.room, s);
    }
    InvOf(st, RelayReadsMessage(st, s), before.(up := before.up[1..]), theirs, s);
  }

  // ----- Every run -----

  lemma ReadKeeps(st: System, s: Slot)
    requires Inv(st) && Enabled(st, RelayReads(s))
    ensures Inv(RelayReadsMessage(st, s))
  {
    if st.sides[s].up[0].Join? {
      ReadJoinKeeps(st, s);
    } else {
      ReadMessageKeeps(st, s);
    }
  }

  lemma StepKeeps(st: System, a: Action)
    requires Inv(st) && Enabled(st, a)
    ensures Inv(Step(st, a))
  {
    match a
    case ByClient(s, act) => ClientActionKeeps(st, s, act);
    case RelayReads(s) => ReadKeeps(st, s);
    case AtRoom(e) => QuietActionKeeps(st, e);
  }

  lemma {:induction false} RunKeeps(states: seq<System>, actions: seq<Action>, cfg: RelayRoom.RoomConfig, i: nat)
    requires Run(states, actions, cfg) && i < |states|
    ensures Inv(states[i])
    decreases i
  {
    if i == 0 {
      InitialInv(cfg);
    } else {
      RunKeeps(states, actions, cfg, i - 1);
      StepKeeps(states[i - 1], actions[i - 1]);
    }
  }

  /** In every run, two clients that have both started the simulation started it with the same
      pair of loadouts, each its own pick, and the pick is what the other was told. */
  lemma LoadoutsAgree(states: seq<System>, actions: seq<Action>, cfg: RelayRoom.RoomConfig, i: nat)
    requires Run(states, actions, cfg) && i < |states|
    requires states[i].sides[0].c.sim.Some? && states[i].sides[1].c.sim.Some?
    ensures var c0, c1 := states[i].sides[0].c, states[i].sides[1].c;
            c0.sim == c1.sim == Some((c0.myLoadout as int, c1.myLoadout as int))
            && 1 <= c0.myLoadout <= 2 && 1 <= c1.myLoadout <= 2
  {
    RunKeeps(states, actions, cfg, i);
  }

  /** Already one client in the fight has the final pair: both have picked, and its pair is their picks. */
  lemma FightMeansBothPicked(states: seq<System>, actions: seq<Action>, cfg: RelayRoom.RoomConfig, i: nat, s: Slot)
    requires Run(states, actions, cfg) && i < |states| && states[i].sides[s].c.lobby == InFight
    ensures var c0, c1 := states[i].sides[0].c, states[i].sides[1].c;
            && c0.loadoutSent && c1.loadoutSent
            && states[i].sides[s].c.sim == Some((c0.myLoadout as int, c1.myLoadout as int))
  {
    RunKeeps(states, actions, cfg, i);
  }

  /** No client that reached the ready state is ever sent back to waiting. */
  lemma NeverBackToWaiting(states: seq<System>, actions: seq<Action>, cfg: RelayRoom.RoomConfig, i: nat, j: nat,
      s: Slot)
    requires Run(states, actions, cfg) && i <= j < |states|
    requires states[i].sides[s].c.net == Ready
    ensures states[j].sides[s].c.wasReady && states[j].sides[s].c.net != Waiting
  {
    RunKeeps(states, actions, cfg, i);
    ReadyIsRemembered(states, actions, cfg, i, j, s);
    RunKeeps(states, actions, cfg, j);
  }

  lemma {:induction false} ReadyIsRemembered(states: seq<System>, actions: seq<Action>, cfg: RelayRoom.RoomConfig,
      i: nat, j: nat, s: Slot)
    requires Run(states, actions, cfg) && i <= j < |states|
    requires states[i].sides[s].c.wasReady
    ensures states[j].sides[s].c.wasReady
    decreases j - i
  {
    if i < j {
      ReadyIsRemembered(states, actions, cfg, i, j - 1, s);
      StepRemembers(states[j - 1], actions[j - 1], s);
    }
  }

  lemma StepRemembers(st: System, a: Action, s: Slot)
    requires Shape(st) && Enabled(st, a) && st.sides[s].c.wasReady
    ensures |Step(st, a).sides| == 2 && Step(st, a).sides[s].c.wasReady
  {
  }

  lemma {:induction false} ClientEntriesOf(es: seq<RelayEntry>, i: nat)
    requires i < |es| && forall j :: 0 <= j < |es| ==> es[j].frame < 0x8000_0000
    ensures ClientEntries(es)[i] == InputEntry(es[i].frame, es[i].input)
    decreases |es|
  {
    if i < |es| - 1 {
      ClientEntriesOf(es[..|es| - 1], i);
    }
  }

  lemma {:induction false} ValidInputsAreSent(sent: seq<RelayEntry>, i: nat, j: nat)
    requires forall k, l :: 0 <= k < l < |sent| ==> sent[k].frame < sent[l].frame
    requires i < j < |ValidInputs(sent)|
    ensures ValidInputs(sent)[j] in sent && ValidInputs(sent)[i] in sent
    ensures ValidInputs(sent)[i].frame < ValidInputs(sent)[j].frame
    decreases |sent|
  {
    var n := |sent| - 1;
    if j < |ValidInputs(sent[..n])| {
      ValidInputsAreSent(sent[..n], i, j);
    } else {
      ValidInputIsSent(sent[..n], i);
    }
  }

  lemma {:induction false} ValidInputIsSent(sent: seq<RelayEntry>, i: nat)
    requires i < |ValidInputs(sent)|
    ensures ValidInputs(sent)[i] in sent
    decreases |sent|
  {
    var n := |sent| - 1;
    if i < |ValidInputs(sent[..n])| {
      ValidInputIsSent(sent[..n], i);
    }
  }

  /** A prefix of what the relay sent carries a prefix of the inputs. */
  lemma RelayedPrefix(out: seq<ServerMsg>, k: nat)
    requires k <= |out|
    ensures RelayRoom.RelayedEntries(out[..k]) <= RelayRoom.RelayedEntries(out)
  {
    assert out == out[..k] + out[k..];
    RelayRoom.RelayedAppend(out[..k], out[k..]);
  }

  lemma ClientEntriesPrefix(a: seq<RelayEntry>, b: seq<RelayEntry>)
    requires a <= b
    ensures ClientEntries(a) <= ClientEntries(b)
  {
    assert b == a + b[|a|..];
    ClientEntriesAppend(a, b[|a|..]);
  }

  lemma DeliveredIsPrefix(mine: Side, theirs: Side, r: Room, s: Slot)
    requires r.Shape() && InputOk(mine, r, Other(s)) && DeliveredOk(theirs, r.out[Other(s)])
    ensures theirs.c.confirmed <= ClientEntries(ValidInputs(mine.c.sent))
  {
    var out := r.out[Other(s)];
    RelayedPrefix(out, theirs.read);
    ClientEntriesPrefix(RelayRoom.RelayedEntries(out[..theirs.read]), ValidInputs(mine.c.sent));
  }

  lemma InvDelivers(st: System, s: Slot)
    requires Inv(st)
    ensures st.sides[Other(s)].c.confirmed <= ClientEntries(ValidInputs(st.sides[s].c.sent))
  {
    InvAt(st, s);
    DeliveredIsPrefix(st.sides[s], st.sides[Other(s)], st.room, s);
  }

  /** In every run, the inputs a client has confirmed are a prefix, in order and without gaps, of
      the valid inputs the other client sent. */
  lemma InputsDeliveredInOrder(states: seq<System>, actions: seq<Action>, cfg: RelayRoom.RoomConfig, i: nat, s: Slot)
    requires Run(states, actions, cfg) && i < |states|
    ensures states[i].sides[Other(s)].c.confirmed <= ClientEntries(ValidInputs(states[i].sides[s].c.sent))
  {
    RunKeeps(states, actions, cfg, i);
    InvDelivers(states[i], s);
  }

  /** No input is lost on the way while the match is active, the listener's socket is open and the
      channel is intact: once everything in transit is read, everything valid has been confirmed. */
  lemma NothingLostWhileActive(states: seq<System>, actions: seq<Action>, cfg: RelayRoom.RoomConfig, i: nat, s: Slot)
    requires Run(states, actions, cfg) && i < |states|
    requires Shape(states[i]) && states[i].room.state == RelayRoom.Active && states[i].room.open[Other(s)]
    requires !states[i].sides[s].upCut && UpInputs(states[i].sides[s].up) == []
    requires states[i].sides[Other(s)].read == |states[i].room.out[Other(s)]|
    ensures states[i].sides[Other(s)].c.confirmed == ClientEntries(ValidInputs(states[i].sides[s].c.sent))
  {
    RunKeeps(states, actions, cfg, i);
    AllRead(states[i].sides[s], states[i].sides[Other(s)], states[i].room, s);
  }

  lemma AllRead(mine: Side, theirs: Side, r: Room, s: Slot)
    requires r.Shape() && InputOk(mine, r, Other(s)) && DeliveredOk(theirs, r.out[Other(s)])
    requires r.state == RelayRoom.Active && r.open[Other(s)] && !mine.upCut && UpInputs(mine.up) == []
    requires theirs.read == |r.out[Other(s)]|
    ensures theirs.c.confirmed == ClientEntries(ValidInputs(mine.c.sent))
  {
    var out := r.out[Other(s)];
    assert out[..theirs.read] == out;
    assert RelayRoom.RelayedEntries(out) + [] == RelayRoom.RelayedEntries(out);
  }

  lemma PrefixFramesIncrease(c: Client, confirmed: seq<InputEntry>, k: nat, l: nat)
    requires FramesOk(c) && confirmed <= ClientEntries(ValidInputs(c.sent)) && k < l < |confirmed|
    ensures confirmed[k].frame < confirmed[l].frame
  {
    var valid := ValidInputs(c.sent);
    forall j | 0 <= j < |valid|
      ensures valid[j].frame < 0x8000_0000
    {
      ValidInputIsSent(c.sent, j);
    }
    ValidInputsAreSent(c.sent, k, l);
    ClientEntriesOf(valid, k);
    ClientEntriesOf(valid, l);
  }

  /** Confirmed frames strictly increase, so no frame is confirmed twice. */
  lemma ConfirmedFramesIncrease(states: seq<System>, actions: seq<Action>, cfg: RelayRoom.RoomConfig, i: nat,
      s: Slot, k: nat, l: nat)
    requires Run(states, actions, cfg) && i < |states|
    requires k < l < |states[i].sides[s].c.confirmed|
    ensures states[i].sides[s].c.confirmed[k].frame < states[i].sides[s].c.confirmed[l].frame
  {
    InputsDeliveredInOrder(states, actions, cfg, i, Other(s));
    RunKeeps(states, actions, cfg, i);
    PrefixFramesIncrease(states[i].sides[Other(s)].c, states[i].sides[s].c.confirmed, k, l);
  }

  /** In every run a client is only ever told its own slot, which decides whose inputs are P1's. */
  lemma EachToldItsSlot(states: seq<System>, actions: seq<Action>, cfg: RelayRoom.RoomConfig, i: nat, s: Slot, j: nat)
    requires Run(states, actions, cfg) && i < |states|
    requires Shape(states[i]) && j < |states[i].room.out[s]| && states[i].room.out[s][j].ServerStart?
    ensures states[i].room.out[s][j].yourSlot == s
  {
    RunKeeps(states, actions, cfg, i);
    InvAt(states[i], s);
  }

  /** In every run a slot is told the end of the match at most once, and nothing after it. */
  lemma EndIsLast(states: seq<System>, actions: seq<Action>, cfg: RelayRoom.RoomConfig, i: nat, s: Slot, j: nat)
    requires Run(states, actions, cfg) && i < |states|
    requires Shape(states[i]) && j < |states[i].room.out[s]| && states[i].room.out[s][j].ServerEnd?
    ensures j == |states[i].room.out[s]| - 1 && states[i].room.state == RelayRoom.Closed
  {
    RunKeeps(states, actions, cfg, i);
  }
}
