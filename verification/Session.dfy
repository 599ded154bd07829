/** One match over the network: two clients and the relay's room, joined by first-in first-out
    channels. `room.out[s]` is everything the relay ever sent to slot s; the client of slot s has
    read the first `read` of it, and a lost connection limits how far it can still read. */
module Session {
  import opened Bytes
  import opened WsStream
  import opened Protocol
  import RelayRoom
  import RoomManager

  type Room = RelayRoom.Room
  type ServerMsg = RelayRoom.ServerMsg

  // ----- The client -----

  datatype Link = NotDialed | Dialing | Up | HungUp

  datatype Lobby = ChoosingRole | BeforeMatch | PickingLoadout | InFight

  /** The lobby and network state of one client. `sim` is the loadout pair simulation_init was
      called with, `sent` the inputs handed to the socket, `wasReady` tells that the start
      message has been dispatched. */
  datatype Client = Client(
    link: Link,
    net: NetState,
    lobby: Lobby,
    myLoadout: byte,
    loadoutSent: bool,
    oppLoadout: int,
    sim: Option<(int, int)>,
    frame: nat,
    sent: seq<RelayEntry>,
    confirmed: seq<InputEntry>,
    wasReady: bool)

  const NEW_CLIENT := Client(NotDialed, Idle, ChoosingRole, 0, false, -1, None, 0, [], [], false)

  /** What dispatch does with a message, apart from the answer to a ping. */
  function OnMessage(c: Client, m: ServerMsg): Client {
    match m
    case ServerWaiting => c.(net := Waiting)
    case ServerStart(_) => c.(net := Ready, wasReady := true)
    case ServerRelay(_, es) => c.(confirmed := c.confirmed + ClientEntries(es))
    case ServerLoadout(b) => c.(oppLoadout := b)
    case ServerEnd(_) => c.(net := Ended)
    case ServerOpponentDisconnect => c
    case ServerPing(_) => c
  }

  /** The bytes of a server message, with the JSON text of those that carry one. */
  function Wire(m: ServerMsg, json: seq<byte>): seq<byte> {
    match m
    case ServerWaiting => [MSG_WAITING] + json
    case ServerStart(_) => [MSG_START] + json
    case ServerRelay(n, es) => EncodeRelayBatch(n % 0x1_0000, es).value
    case ServerLoadout(b) => EncodeLoadout(b)
    case ServerEnd(_) => [MSG_MATCH_END] + json
    case ServerOpponentDisconnect => [0x17] + json
    case ServerPing(t) => [MSG_PING] + json
  }

  /** The step on messages is the byte-level dispatch seen through the wire format. */
  lemma DispatchAgrees(c: Client, core: Core, m: ServerMsg, json: seq<byte>)
    requires c.net == core.state && c.oppLoadout == core.opponentLoadout && c.confirmed == core.confirmed
    requires m.ServerRelay? ==> |m.entries| <= 255
    ensures var c', core' := OnMessage(c, m), Dispatch(core, Wire(m, json));
            c'.net == core'.state && c'.oppLoadout == core'.opponentLoadout && c'.confirmed == core'.confirmed
  {
    if m.ServerRelay? {
      BatchDispatches(core, m.seqNo % 0x1_0000, m.entries);
    }
  }

  /** The loadouts of P1 and P2 as the client in slot s sees them. */
  function LoadoutPair(s: Slot, mine: int, theirs: int): (int, int) {
    if s == 0 then (mine, theirs) else (theirs, mine)
  }

  /** The per-frame lobby logic: a started match moves on to loadout selection, and two known
      loadouts start the simulation. */
  function LobbyFrame(c: Client, s: Slot): Client {
    var c1 := if c.lobby == BeforeMatch && c.net == Ready then c.(lobby := PickingLoadout, net := Fighting) else c;
    if c1.lobby == PickingLoadout && c1.myLoadout != 0 && c1.oppLoadout >= 0 then
      c1.(lobby := InFight, sim := Some(LoadoutPair(s, c1.myLoadout, c1.oppLoadout)))
    else c1
  }

  // ----- The whole system -----

  /** A client with its join data and its outgoing channel: messages the relay has not read yet, whether the
      channel has lost its tail, and its position in what the relay sent. */
  datatype Side = Side(join: JoinInfo, c: Client, up: seq<ClientMsg>, upCut: bool, read: nat, limit: Option<nat>)
  {
    /** A send on a channel that has lost its tail is lost too. */
    function SendUp(m: ClientMsg): Side {
      if upCut then this else this.(up := up + [m])
    }
  }

  datatype System = System(sides: seq<Side>, room: Room)

  /** What a client, or the network on its side, can do. */
  datatype ClientAction =
    | Dial
    | Upgrade
    | ReadNext
    | LobbyTick
    | Pick(loadout: byte)
    | IdleTick
    | FightTick(input: uint16)
    | HangUp
    | NetFails
    | LoseUp(kept: nat)
    | LoseDown(kept: nat)

  datatype Action =
    | ByClient(s: Slot, act: ClientAction)
    | RelayReads(s: Slot)
    | AtRoom(event: RelayRoom.RoomEvent)

  predicate Shape(st: System) {
    |st.sides| == 2 && st.room.Shape()
  }

  function CanRead(st: System, s: Slot): nat
    requires Shape(st)
  {
    match st.sides[s].limit
    case None => |st.room.out[s]|
    case Some(n) => if n < |st.room.out[s]| then n else |st.room.out[s]|
  }

  /** The guards of a client action; `canRead` is how much of what the relay sent can arrive.
      A frame counter stays below 2^31. */
  predicate CanDo(side: Side, a: ClientAction, canRead: nat) {
    match a
    case Dial => side.c.link == NotDialed
    case Upgrade => side.c.link == Dialing
    case ReadNext => side.c.link == Up && side.read < canRead
    case Pick(k) => side.c.lobby == PickingLoadout && !side.c.loadoutSent && 1 <= k <= 2
    case IdleTick => side.c.frame + 1 < 0x8000_0000
    case FightTick(_) => side.c.lobby == InFight && side.c.frame + 1 < 0x8000_0000
    case LoseUp(kept) => kept <= |side.up|
    case LoseDown(kept) => side.read <= kept <= canRead
    case _ => true
  }

  /** A closed or dropped socket, a forfeit or a ping: the room events other than join and message. */
  predicate QuietEvent(e: RelayRoom.RoomEvent) {
    e.Drops? || e.Closes? || e.Forfeits? || e.Pings?
  }

  /** A batch number stays below 2^16. */
  predicate Enabled(st: System, a: Action)
    requires Shape(st)
  {
    match a
    case ByClient(s, act) => CanDo(st.sides[s], act, CanRead(st, s))
    case RelayReads(s) =>
      st.sides[s].up != [] && (st.sides[s].up[0].Join? || st.room.slots[s].Some?)
      && (st.room.slots[Other(s)].Some? ==> st.room.slots[Other(s)].value.seqNo < 0x1_0000)
    case AtRoom(e) => QuietEvent(e) && RelayRoom.Enabled(st.room, e)
  }

  function FightFrame(side: Side, input: uint16): Side
    requires side.c.frame + 1 < 0x8000_0000
  {
    var c := side.c.(frame := side.c.frame + 1);
    if (c.net == Fighting || c.net == Ready) && c.link == Up then
      var sent := side.(c := c.(sent := c.sent + [RelayEntry(c.frame, input)]));
      sent.SendUp(Input(c.frame % 0x1_0000, c.frame, input))
    else side.(c := c)
  }

  /** The manager's view of one room: closed rooms are not in its table. */
  function Table(room: Room): RoomManager.World {
    RoomManager.World([room], if room.state == RelayRoom.Closed then map[] else map[room.cfg.roomId := 0], map[], 1)
  }

  /** The relay takes the next message of slot s: the join goes to the manager, the rest to the room. */
  function RelayReadsMessage(st: System, s: Slot): (st': System)
    requires Shape(st) && st.sides[s].up != []
  {
    var m := st.sides[s].up[0];
    var room :=
      if m.Join? then RoomManager.JoinIn(Table(st.room), Some(m)).0.rooms[0]
      else RelayRoom.HandleMessage(st.room, s, Some(m));
    System(st.sides[s := st.sides[s].(up := st.sides[s].up[1..])], room)
  }

  /** What a client action does to its side; `out` is what the relay has sent to it. */
  function SideStep(side: Side, a: ClientAction, s: Slot, out: seq<ServerMsg>): Side
    requires CanDo(side, a, |out|)
  {
    var c := side.c;
    match a
    case Dial => side.(c := c.(link := Dialing, net := Connecting, lobby := BeforeMatch, oppLoadout := -1))
    case Upgrade => side.(c := c.(link := Up, net := Waiting)).SendUp(Join(side.join))
    case ReadNext =>
      var m := out[side.read];
      var got := side.(c := OnMessage(c, m), read := side.read + 1);
      if m.ServerPing? then got.SendUp(Pong) else got
    case LobbyTick => side.(c := LobbyFrame(c, s))
    case Pick(k) =>
      var picked := side.(c := c.(myLoadout := k, loadoutSent := true));
      if c.link == Up then picked.SendUp(Loadout(k)) else picked
    case IdleTick => side.(c := c.(frame := c.frame + 1))
    case FightTick(input) => FightFrame(side, input)
    case HangUp => side.(c := c.(link := HungUp, net := Idle, lobby := ChoosingRole))
    case NetFails => side.(c := c.(net := Error))
    case LoseUp(kept) => side.(up := side.up[..kept], upCut := true)
    case LoseDown(kept) => side.(limit := Some(kept))
  }

  function Step(st: System, a: Action): (st': System)
    requires Shape(st) && Enabled(st, a)
  {
    match a
    case ByClient(s, act) => st.(sides := st.sides[s := SideStep(st.sides[s], act, s, st.room.out[s])])
    case RelayReads(s) => RelayReadsMessage(st, s)
    case AtRoom(e) => st.(room := RelayRoom.Step(st.room, e))
  }

  function Initial(cfg: RelayRoom.RoomConfig): System {
    var p1 := Side(JoinInfo(cfg.roomId, cfg.p1Id, 0), NEW_CLIENT, [], false, 0, None);
    var p2 := Side(JoinInfo(cfg.roomId, cfg.p2Id, 1), NEW_CLIENT, [], false, 0, None);
    System([p1, p2], RelayRoom.NewRoom(cfg))
  }

  /** A run: any interleaving of client, relay and network actions. */
  ghost predicate Run(states: seq<System>, actions: seq<Action>, cfg: RelayRoom.RoomConfig) {
    && |states| == |actions| + 1
    && states[0] == Initial(cfg)
    && (forall i :: 0 <= i < |states| ==> Shape(states[i]))
    && (forall i {:trigger actions[i]} :: 0 <= i < |actions| ==>
          Enabled(states[i], actions[i]) && states[i + 1] == Step(states[i], actions[i]))
  }
}
