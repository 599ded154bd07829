/** The relay's rooms: the table that connections look rooms up in, the forfeit timers, and what
    no interleaving of joins, messages, closes and forfeits can break. A reference to a room is
    its index in the order of creation. */
module RoomManager {
  import opened Bytes
  import opened Protocol
  import opened RelayRoom

  type TimerKey = (string, Slot)

  datatype World = World(rooms: seq<Room>, table: map<string, nat>, timers: map<TimerKey, nat>, maxRooms: nat)

  /** How the first message of a connection is answered. */
  datatype JoinResult = NotAJoin | RoomNotFound | WrongPlayer | SlotTaken | Joined(room: nat)

  datatype WorldEvent =
    | Create(cfg: RoomConfig)
    | FirstMessage(msg: Option<ClientMsg>)
    | AtRoom(room: nat, event: RoomEvent)
    | StartTimer(room: nat, slot: Slot)
    | TimerFires(key: TimerKey)

  // ----- The operations on values -----

  /** None when the relay is at capacity. An id that is already in the table is taken over. */
  function CreateIn(w: World, cfg: RoomConfig): (World, Option<nat>) {
    if |w.table| >= w.maxRooms then (w, None)
    else (w.(rooms := w.rooms + [NewRoom(cfg)], table := w.table[cfg.roomId := |w.rooms|]), Some(|w.rooms|))
  }

  function Cancel(timers: map<TimerKey, nat>, id: string, s: Slot): map<TimerKey, nat> {
    timers - {(id, s)}
  }

  /** The synchronous part of the end handler: both timers of the id and its table entry go. */
  function RoomEnded(w: World, k: nat): World
    requires k < |w.rooms|
  {
    var id := w.rooms[k].cfg.roomId;
    w.(timers := Cancel(Cancel(w.timers, id, 0), id, 1), table := w.table - {id})
  }

  /** A join to room k: the player has to be the one the slot was made for, and the slot free. */
  function JoinRoom(w: World, k: nat, info: JoinInfo): (World, JoinResult)
    requires k < |w.rooms| && w.rooms[k].Shape()
  {
    var cfg := w.rooms[k].cfg;
    if info.playerId != (if info.slot == 0 then cfg.p1Id else cfg.p2Id) then (w, WrongPlayer)
    else
      var (r, ok) := Attach(w.rooms[k], info.slot, info.playerId,
          if info.slot == 0 then cfg.p1Fighter else cfg.p2Fighter);
      if !ok then (w, SlotTaken)
      else (w.(rooms := w.rooms[k := r], timers := Cancel(w.timers, cfg.roomId, info.slot)), Joined(k))
  }

  function JoinIn(w: World, msg: Option<ClientMsg>): (World, JoinResult)
    requires IndexOk(w)
  {
    match msg
    case Some(Join(info)) =>
      if info.roomId !in w.table then (w, RoomNotFound) else JoinRoom(w, w.table[info.roomId], info)
    case _ => (w, NotAJoin)
  }

  /** An event of room k other than a join; the end handler runs when the room was still open. */
  function AtRoomIn(w: World, k: nat, e: RoomEvent): World
    requires k < |w.rooms| && w.rooms[k].Shape()
  {
    var r := Step(w.rooms[k], e);
    var w' := w.(rooms := w.rooms[k := r]);
    if w.rooms[k].state != Closed && r.state == Closed then RoomEnded(w', k) else w'
  }

  /** References lead to rooms. */
  ghost predicate IndexOk(w: World) {
    && (forall k :: 0 <= k < |w.rooms| ==> w.rooms[k].Shape())
    && (forall id :: id in w.table ==> w.table[id] < |w.rooms|)
    && (forall key :: key in w.timers ==> w.timers[key] < |w.rooms|)
  }

  ghost predicate Listed(w: World, id: string)
    requires IndexOk(w) && id in w.table
  {
    var r := w.rooms[w.table[id]];
    r.cfg.roomId == id && r.state != Closed
  }

  /** Every room in order, and the table leads only to rooms that are not closed and have that id. */
  ghost predicate WorldOk(w: World) {
    && IndexOk(w)
    && (forall k :: 0 <= k < |w.rooms| ==> RoomOk(w.rooms[k]))
    && (forall id :: id in w.table ==> Listed(w, id))
  }

  /** A message that the room may relay finds a batch number left: the source raises on the 65537th
      batch of a slot. */
  predicate Numberable(r: Room, e: RoomEvent)
    requires r.Shape()
  {
    e.Says? && r.slots[Other(e.slot)].Some? ==> r.slots[Other(e.slot)].value.seqNo < 0x1_0000
  }

  ghost predicate Possible(w: World, e: WorldEvent)
    requires IndexOk(w)
  {
    match e
    case AtRoom(k, re) =>
      k < |w.rooms| && !re.Joins? && !re.Forfeits? && Enabled(w.rooms[k], re) && Numberable(w.rooms[k], re)
    case StartTimer(k, s) => k < |w.rooms|
    case TimerFires(key) => key in w.timers
    case _ => true
  }

  ghost function Next(w: World, e: WorldEvent): World
    requires IndexOk(w) && Possible(w, e)
  {
    match e
    case Create(cfg) => CreateIn(w, cfg).0
    case FirstMessage(msg) => JoinIn(w, msg).0
    case AtRoom(k, re) => AtRoomIn(w, k, re)
    case StartTimer(k, s) =>
      var key := (w.rooms[k].cfg.roomId, s);
      if key in w.timers then w else w.(timers := w.timers[key := k])
    case TimerFires(key) => AtRoomIn(w.(timers := w.timers - {key}), w.timers[key], Forfeits(key.1))
  }

  lemma RoomReplaced(w: World, k: nat, r: Room)
    requires IndexOk(w) && k < |w.rooms| && r.Shape()
    ensures IndexOk(w.(rooms := w.rooms[k := r]))
    ensures IndexOk(RoomEnded(w.(rooms := w.rooms[k := r]), k))
  {
  }

  lemma TimersReplaced(w: World, timers: map<TimerKey, nat>)
    requires IndexOk(w) && forall key :: key in timers ==> timers[key] < |w.rooms|
    ensures IndexOk(w.(timers := timers))
  {
  }

  lemma JoinIndexOk(w: World, msg: Option<ClientMsg>)
    requires IndexOk(w)
    ensures IndexOk(JoinIn(w, msg).0)
  {
    if JoinIn(w, msg).1.Joined? {
      var info := msg.value.info;
      var r := w.rooms[w.table[info.roomId]];
      var r' := Attach(r, info.slot, info.playerId, if info.slot == 0 then r.cfg.p1Fighter else r.cfg.p2Fighter).0;
      RoomReplaced(w, w.table[info.roomId], r');
      TimersReplaced(w.(rooms := w.rooms[w.table[info.roomId] := r']), Cancel(w.timers, r.cfg.roomId, info.slot));
    }
  }

  lemma CreateIndexOk(w: World, cfg: RoomConfig)
    requires IndexOk(w)
    ensures IndexOk(CreateIn(w, cfg).0)
  {
  }

  lemma AtRoomIndexOk(w: World, k: nat, e: RoomEvent)
    requires IndexOk(w) && k < |w.rooms|
    ensures IndexOk(AtRoomIn(w, k, e))
  {
    RoomReplaced(w, k, Step(w.rooms[k], e));
  }

  // ----- What every event keeps -----

  /** Room k replaced by a room in order with the same id. */
  lemma ReplaceKeeps(w: World, k: nat, r: Room)
    requires WorldOk(w) && k < |w.rooms| && RoomOk(r) && r.cfg == w.rooms[k].cfg
    ensures r.state != Closed || w.rooms[k].state == Closed ==> WorldOk(w.(rooms := w.rooms[k := r]))
    ensures WorldOk(RoomEnded(w.(rooms := w.rooms[k := r]), k))
  {
    var w' := w.(rooms := w.rooms[k := r]);
    forall id | id in w.table && (w.table[id] != k || r.state != Closed || w.rooms[k].state == Closed)
      ensures Listed(w', id)
    {
      assert Listed(w, id);
    }
    var e := RoomEnded(w', k);
    forall id | id in e.table
      ensures Listed(e, id)
    {
      assert Listed(w, id);
    }
  }

  lemma StepKeepsConfig(r: Room, e: RoomEvent)
    requires r.Shape()
    ensures Step(r, e).cfg == r.cfg
    ensures r.state == Closed && !e.Joins? ==> Step(r, e).state == Closed
  {
  }

  lemma AtRoomKeeps(w: World, k: nat, e: RoomEvent)
    requires WorldOk(w) && k < |w.rooms| && Enabled(w.rooms[k], e) && !e.Joins?
    ensures WorldOk(AtRoomIn(w, k, e))
  {
    StepKeeps(w.rooms[k], e);
    StepKeepsConfig(w.rooms[k], e);
    ReplaceKeeps(w, k, Step(w.rooms[k], e));
  }

  lemma AttachOpens(r: Room, s: Slot, playerId: string, fighterId: int)
    requires r.Shape() && r.state != Closed
    ensures var r' := Attach(r, s, playerId, fighterId).0; r'.state != Closed && r'.cfg == r.cfg
  {
  }

  lemma TimersDoNotMatter(w: World, timers: map<TimerKey, nat>)
    requires WorldOk(w) && forall key :: key in timers ==> timers[key] < |w.rooms|
    ensures WorldOk(w.(timers := timers))
  {
    var w' := w.(timers := timers);
    forall id | id in w'.table
      ensures Listed(w', id)
    {
      assert Listed(w, id);
    }
  }

  lemma JoinKeeps(w: World, msg: Option<ClientMsg>)
    requires WorldOk(w)
    ensures WorldOk(JoinIn(w, msg).0)
  {
    if JoinIn(w, msg).1.Joined? {
      var info := msg.value.info;
      var k := w.table[info.roomId];
      assert Listed(w, info.roomId);
      var r := w.rooms[k];
      var fighter := if info.slot == 0 then r.cfg.p1Fighter else r.cfg.p2Fighter;
      AttachKeeps(r, info.slot, info.playerId, fighter);
      AttachOpens(r, info.slot, info.playerId, fighter);
      ReplaceKeeps(w, k, Attach(r, info.slot, info.playerId, fighter).0);
      TimersDoNotMatter(w.(rooms := w.rooms[k := Attach(r, info.slot, info.playerId, fighter).0]), Cancel(w.timers,
          r.cfg.roomId, info.slot));
    }
  }

  lemma NewRoomOk(cfg: RoomConfig)
    ensures RoomOk(NewRoom(cfg)) && NewRoom(cfg).state == Waiting && NewRoom(cfg).cfg == cfg
  {
  }

  lemma CreateKeeps(w: World, cfg: RoomConfig)
    requires WorldOk(w)
    ensures WorldOk(CreateIn(w, cfg).0)
  {
    if |w.table| < w.maxRooms {
      NewRoomOk(cfg);
      RoomAdded(w, NewRoom(cfg), cfg.roomId);
    }
  }

  /** One more room in order, under its own id. */
  lemma RoomAdded(w: World, r: Room, id: string)
    requires WorldOk(w) && RoomOk(r) && r.state != Closed && r.cfg.roomId == id
    ensures WorldOk(w.(rooms := w.rooms + [r], table := w.table[id := |w.rooms|]))
  {
    var w' := w.(rooms := w.rooms + [r], table := w.table[id := |w.rooms|]);
    assert forall k :: 0 <= k < |w'.rooms| ==> w'.rooms[k] == if k < |w.rooms| then w.rooms[k] else r;
    forall other | other in w'.table
      ensures Listed(w', other)
    {
      assert other != id ==> Listed(w, other);
    }
  }

  /** Whatever happens, in any order: rooms stay in order and the table leads to no closed room. */
  lemma NextKeeps(w: World, e: WorldEvent)
    requires WorldOk(w) && Possible(w, e)
    ensures WorldOk(Next(w, e))
  {
    match e
    case Create(cfg) => CreateKeeps(w, cfg);
    case FirstMessage(msg) => JoinKeeps(w, msg);
    case AtRoom(k, re) => AtRoomKeeps(w, k, re);
    case StartTimer(k, s) => TimersDoNotMatter(w, Next(w, e).timers);
    case TimerFires(key) =>
      TimersDoNotMatter(w, w.timers - {key});
      AtRoomKeeps(w.(timers := w.timers - {key}), w.timers[key], Forfeits(key.1));
  }

  /** Nothing but the state of the sockets differs. */
  predicate Frozen(r: Room, r': Room) {
    r' == r.(open := r'.open)
  }

  /** A closed room stays closed, is sent nothing, logs nothing and does not end again. */
  lemma ClosedStays(w: World, e: WorldEvent, k: nat)
    requires WorldOk(w) && Possible(w, e) && k < |w.rooms| && w.rooms[k].state == Closed
    ensures k < |Next(w, e).rooms| && Frozen(w.rooms[k], Next(w, e).rooms[k])
  {
    match e
    case FirstMessage(msg) =>
      if JoinIn(w, msg).1.Joined? {
        assert Listed(w, msg.value.info.roomId);
      }
    case AtRoom(j, re) =>
      if j == k {
        ClosedIsQuiet(w.rooms[k], re);
        StepKeepsConfig(w.rooms[k], re);
      }
    case TimerFires(key) =>
      if w.timers[key] == k {
        ClosedIsQuiet(w.rooms[k], Forfeits(key.1));
      }
    case _ =>
  }

  // ----- Whole runs -----

  /** A run of the relay from no rooms at all. */
  ghost predicate Run(ws: seq<World>, es: seq<WorldEvent>) {
    && |ws| == |es| + 1
    && ws[0].rooms == [] && ws[0].table == map[] && ws[0].timers == map[]
    && forall i {:trigger es[i]} :: 0 <= i < |es| ==>
         IndexOk(ws[i]) && Possible(ws[i], es[i]) && ws[i + 1] == Next(ws[i], es[i])
  }

  lemma RunStarts(ws: seq<World>, es: seq<WorldEvent>)
    requires Run(ws, es)
    ensures WorldOk(ws[0])
  {
  }

  lemma RunGoesOn(ws: seq<World>, es: seq<WorldEvent>, i: nat, next: nat)
    requires Run(ws, es) && i < |es| && next == i + 1 && WorldOk(ws[i])
    ensures WorldOk(ws[next])
  {
    NextKeeps(ws[i], es[i]);
  }

  lemma {:induction false} RunKeeps(ws: seq<World>, es: seq<WorldEvent>, i: nat)
    requires Run(ws, es) && i < |ws|
    ensures WorldOk(ws[i])
    decreases i
  {
    if i == 0 {
      RunStarts(ws, es);
    } else {
      RunKeeps(ws, es, i - 1);
      RunGoesOn(ws, es, i - 1, i);
    }
  }

  lemma ClosedStaysInRun(ws: seq<World>, es: seq<WorldEvent>, i: nat, k: nat)
    requires Run(ws, es) && i < |es| && k < |ws[i].rooms| && ws[i].rooms[k].state == Closed
    ensures k < |ws[i + 1].rooms| && Frozen(ws[i].rooms[k], ws[i + 1].rooms[k])
  {
    RunKeeps(ws, es, i);
    ClosedStays(ws[i], es[i], k);
  }

  lemma FrozenTwice(a: Room, b: Room, c: Room)
    requires Frozen(a, b) && Frozen(b, c)
    ensures Frozen(a, c)
  {
  }

  /** In every run, from the moment a room is closed it keeps its state, its log, everything it
      ever sent and the one payload it was ended with. */
  lemma {:induction false} ClosedForever(ws: seq<World>, es: seq<WorldEvent>, i: nat, j: nat, k: nat)
    requires Run(ws, es) && i <= j < |ws| && k < |ws[i].rooms| && ws[i].rooms[k].state == Closed
    ensures k < |ws[j].rooms| && Frozen(ws[i].rooms[k], ws[j].rooms[k])
    decreases j - i
  {
    if i < j {
      ClosedForever(ws, es, i, j - 1, k);
      ClosedStaysInRun(ws, es, j - 1, k);
      FrozenTwice(ws[i].rooms[k], ws[j - 1].rooms[k], ws[j].rooms[k]);
    }
  }

  /** In every run onEnd has been called once for a closed room and not at all for any other, a
      room found through the table is not closed, and an active room has both slots taken. */
  lemma EndedExactlyWhenClosed(ws: seq<World>, es: seq<WorldEvent>, i: nat, k: nat)
    requires Run(ws, es) && i < |ws| && k < |ws[i].rooms|
    ensures |ws[i].rooms[k].ended| == (if ws[i].rooms[k].state == Closed then 1 else 0)
    ensures k in ws[i].table.Values ==> ws[i].rooms[k].state != Closed
    ensures var r := ws[i].rooms[k];
            r.Shape() && (r.state == Active ==> r.slots[0].Some? && r.slots[1].Some?)
  {
    RunKeeps(ws, es, i);
    assert RoomOk(ws[i].rooms[k]);
    if k in ws[i].table.Values {
      var id :| id in ws[i].table && ws[i].table[id] == k;
      assert Listed(ws[i], id);
    }
  }

  // ----- Reuse of a room id -----

  ghost predicate OpenRoomsFound(w: World) {
    forall k :: 0 <= k < |w.rooms| && w.rooms[k].state != Closed ==>
      w.rooms[k].cfg.roomId in w.table && w.table[w.rooms[k].cfg.roomId] == k
  }

  /** Every open room can be found, except that creating a room under an id that is still in the
      table loses the older room: creation does not look. */
  lemma CreateLosesARoomExactly(w: World, cfg: RoomConfig)
    requires WorldOk(w) && OpenRoomsFound(w) && |w.table| < w.maxRooms
    ensures OpenRoomsFound(CreateIn(w, cfg).0) <==> cfg.roomId !in w.table
  {
    var w' := CreateIn(w, cfg).0;
    if cfg.roomId in w.table {
      var k := w.table[cfg.roomId];
      assert w'.rooms[k] == w.rooms[k];
      assert w'.table[cfg.roomId] != k;
    }
  }

  lemma AtRoomFound(w: World, k: nat, e: RoomEvent)
    requires WorldOk(w) && OpenRoomsFound(w) && k < |w.rooms| && Enabled(w.rooms[k], e) && !e.Joins?
    ensures OpenRoomsFound(AtRoomIn(w, k, e))
  {
    StepKeepsConfig(w.rooms[k], e);
  }

  /** Every other event keeps every open room within reach. */
  lemma OpenRoomsStayFound(w: World, e: WorldEvent)
    requires WorldOk(w) && OpenRoomsFound(w) && Possible(w, e) && !e.Create?
    ensures OpenRoomsFound(Next(w, e))
  {
    match e
    case AtRoom(k, re) => AtRoomFound(w, k, re);
    case TimerFires(key) =>
      AtRoomFound(w.(timers := w.timers - {key}), w.timers[key], Forfeits(key.1));
    case FirstMessage(msg) =>
      if msg.Some? && msg.value.Join? && msg.value.info.roomId in w.table {
        var info := msg.value.info;
        var r := w.rooms[w.table[info.roomId]];
        AttachOpens(r, info.slot, info.playerId, if info.slot == 0 then r.cfg.p1Fighter else r.cfg.p2Fighter);
      }
    case _ =>
  }

  /** A creation that is not refused uses an id that leads nowhere yet. */
  ghost predicate FreshId(w: World, e: WorldEvent) {
    e.Create? && |w.table| < w.maxRooms ==> e.cfg.roomId !in w.table
  }

  lemma FoundAfterExactly(w: World, e: WorldEvent)
    requires WorldOk(w) && OpenRoomsFound(w) && Possible(w, e)
    ensures OpenRoomsFound(Next(w, e)) <==> FreshId(w, e)
  {
    if e.Create? {
      if |w.table| < w.maxRooms {
        CreateLosesARoomExactly(w, e.cfg);
      }
    } else {
      OpenRoomsStayFound(w, e);
    }
  }

  ghost predicate AllFresh(ws: seq<World>, es: seq<WorldEvent>) {
    |ws| >= |es| && forall j {:trigger es[j]} :: 0 <= j < |es| ==> FreshId(ws[j], es[j])
  }

  lemma FoundAtStepExactly(ws: seq<World>, es: seq<WorldEvent>, i: nat)
    requires Run(ws, es) && i < |es| && OpenRoomsFound(ws[i])
    ensures OpenRoomsFound(ws[i + 1]) <==> FreshId(ws[i], es[i])
  {
    RunKeeps(ws, es, i);
    var w, e := ws[i], es[i];
    assert Possible(w, e) && ws[i + 1] == Next(w, e);
    FoundAfterExactly(w, e);
  }

  lemma FoundAtStep(ws: seq<World>, es: seq<WorldEvent>, i: nat, next: nat)
    requires Run(ws, es) && AllFresh(ws, es) && i < |es| && next == i + 1 && OpenRoomsFound(ws[i])
    ensures OpenRoomsFound(ws[next])
  {
    FoundAtStepExactly(ws, es, i);
  }

  lemma NothingToFind(ws: seq<World>, es: seq<WorldEvent>)
    requires Run(ws, es)
    ensures OpenRoomsFound(ws[0])
  {
  }

  lemma {:induction false} FoundSoFar(ws: seq<World>, es: seq<WorldEvent>, i: nat)
    requires Run(ws, es) && AllFresh(ws, es) && i < |ws|
    ensures OpenRoomsFound(ws[i])
    decreases i
  {
    if i == 0 {
      NothingToFind(ws, es);
    } else {
      FoundSoFar(ws, es, i - 1);
      FoundAtStep(ws, es, i - 1, i);
    }
  }

  /** A run keeps every open room within reach at every moment if and only if no creation takes over
      an id that is in the table. */
  lemma OpenRoomsFoundInRunExactly(ws: seq<World>, es: seq<WorldEvent>)
    requires Run(ws, es)
    ensures (forall i :: 0 <= i < |ws| ==> OpenRoomsFound(ws[i])) <==> AllFresh(ws, es)
  {
    if AllFresh(ws, es) {
      forall i | 0 <= i < |ws|
        ensures OpenRoomsFound(ws[i])
      {
        FoundSoFar(ws, es, i);
      }
    }
    if forall i :: 0 <= i < |ws| ==> OpenRoomsFound(ws[i]) {
      forall j | 0 <= j < |es|
        ensures FreshId(ws[j], es[j])
      {
        assert OpenRoomsFound(ws[j]) && OpenRoomsFound(ws[j + 1]);
        FoundAtStepExactly(ws, es, j);
      }
    }
  }

  // ----- The classes -----

  class DisconnectHandler {
    var active: map<TimerKey, nat>

    constructor ()
      ensures active == map[]
    {
      active := map[];
    }

    method Start(id: string, room: nat, s: Slot)
      modifies this
      ensures active == if (id, s) in old(active) then old(active) else old(active)[(id, s) := room]
    {
      if (id, s) in active { return; }
      active := active[(id, s) := room];
    }

    method CancelSlot(id: string, s: Slot)
      modifies this
      ensures active == Cancel(old(active), id, s)
    {
      if (id, s) !in active { return; }
      active := active - {(id, s)};
    }

    method Clear(id: string)
      modifies this
      ensures active == Cancel(Cancel(old(active), id, 0), id, 1)
    {
      CancelSlot(id, 0);
      CancelSlot(id, 1);
    }
  }

  ghost function ValsOf(rs: seq<RelayRoom>): (vs: seq<Room>)
    reads rs, set k | 0 <= k < |rs| :: rs[k].inputLog
    ensures |vs| == |rs| && forall k :: 0 <= k < |rs| ==> vs[k] == rs[k].Val()
  {
    seq(|rs|, k requires 0 <= k < |rs| reads rs, set j | 0 <= j < |rs| :: rs[j].inputLog => rs[k].Val())
  }

  class RoomManager {
    var all: seq<RelayRoom>          // every room ever created
    var rooms: map<string, nat>      // the table
    const disconnectH: DisconnectHandler
    const maxRooms: nat

    ghost predicate Distinct()
      reads this, all
    {
      && (forall i, j :: 0 <= i < j < |all| ==> all[i] != all[j])
      && (forall i, j :: 0 <= i < j < |all| ==> all[i].inputLog != all[j].inputLog)
    }

    ghost function Logs(): set<object>
      reads this, all
    {
      set k | 0 <= k < |all| :: all[k].inputLog
    }

    ghost function Vals(): (vs: seq<Room>)
      reads this, all, Logs()
      ensures |vs| == |all| && forall k :: 0 <= k < |all| ==> vs[k] == all[k].Val()
    {
      ValsOf(all)
    }

    /** When only room k and its log were written, the other rooms have their old values. */
    twostate lemma OneRoomChanged(k: nat)
      requires k < |all| && all == old(all) && old(Distinct())
      requires forall j :: 0 <= j < |all| && j != k ==> unchanged(all[j]) && unchanged(all[j].inputLog)
      ensures Vals() == old(Vals())[k := all[k].Val()]
    {
    }

    ghost function TheWorld(): World
      reads this, all, Logs(), disconnectH
    {
      World(Vals(), rooms, disconnectH.active, maxRooms)
    }

    ghost predicate Valid()
      reads this, all, Logs(), disconnectH
    {
      Distinct() && IndexOk(TheWorld())
    }

    constructor (capacity: nat)
      ensures Valid() && fresh(disconnectH) && TheWorld() == World([], map[], map[], capacity)
    {
      all, rooms := [], map[];
      disconnectH := new DisconnectHandler();
      maxRooms := capacity;
    }

    method AddRoom(cfg: RoomConfig)
      requires Distinct()
      modifies this`all
      ensures Distinct() && Vals() == old(Vals()) + [NewRoom(cfg)] && |all| == old(|all|) + 1
    {
      var r := new RelayRoom(cfg);
      all := all + [r];
    }

    method CreateRoom(cfg: RoomConfig) returns (room: Option<nat>)
      requires Valid()
      modifies this
      ensures Valid() && (TheWorld(), room) == CreateIn(old(TheWorld()), cfg)
    {
      ghost var w := TheWorld();
      if |rooms| >= maxRooms {
        return None;
      }
      AddRoom(cfg);
      rooms := rooms[cfg.roomId := |all| - 1];
      room := Some(|all| - 1);
      CreateIndexOk(w, cfg);
    }

    method AttachTo(k: nat, s: Slot, playerId: string, fighterId: int) returns (ok: bool)
      requires k < |all| && Distinct() && all[k].Val().Shape()
      modifies all, Logs()
      ensures Distinct() && Vals() == old(Vals())[k := Attach(old(all[k].Val()), s, playerId, fighterId).0]
      ensures ok == Attach(old(all[k].Val()), s, playerId, fighterId).1
      ensures !ok ==> Vals() == old(Vals())
    {
      ok := all[k].AttachSocket(s, playerId, fighterId);
      OneRoomChanged(k);
      assert !ok ==> Vals() == old(Vals());
    }

    /** An attached player's forfeit timer stops. */
    method StopTimer(id: string, s: Slot)
      modifies disconnectH
      ensures disconnectH.active == Cancel(old(disconnectH.active), id, s)
      ensures Vals() == old(Vals()) && (old(Distinct()) ==> Distinct())
    {
      disconnectH.CancelSlot(id, s);
    }

    method Join(k: nat, info: JoinInfo) returns (result: JoinResult)
      requires k < |all| && Distinct() && all[k].Val().Shape()
      modifies all, Logs(), disconnectH
      ensures Distinct() && (TheWorld(), result) == JoinRoom(old(TheWorld()), k, info)
    {
      ghost var w := TheWorld();
      var cfg := all[k].cfg;
      if info.playerId != (if info.slot == 0 then cfg.p1Id else cfg.p2Id) {
        return WrongPlayer;
      }
      var ok := AttachTo(k, info.slot, info.playerId, if info.slot == 0 then cfg.p1Fighter else cfg.p2Fighter);
      if !ok {
        return SlotTaken;
      }
      StopTimer(cfg.roomId, info.slot);
      result := Joined(k);
    }

    method HandleFirstMessage(msg: Option<ClientMsg>) returns (result: JoinResult)
      requires Valid()
      modifies this, all, Logs(), disconnectH
      ensures Valid() && (TheWorld(), result) == JoinIn(old(TheWorld()), msg)
    {
      if msg.None? || !msg.value.Join? {
        return NotAJoin;
      }
      var info := msg.value.info;
      if info.roomId !in rooms {
        return RoomNotFound;
      }
      ghost var w := TheWorld();
      assert w.rooms[rooms[info.roomId]].Shape();
      result := Join(rooms[info.roomId], info);
      JoinIndexOk(w, msg);
    }

    /** The synchronous head of the end handler. */
    method HandleRoomEnd(k: nat)
      requires k < |all| && Distinct()
      modifies this`rooms, disconnectH
      ensures TheWorld() == RoomEnded(old(TheWorld()), k) && Distinct()
    {
      disconnectH.Clear(all[k].cfg.roomId);
      rooms := rooms - {all[k].cfg.roomId};
    }

    /** The close event of an attached socket that is no longer open. */
    method OnClose(k: nat, s: Slot)
      requires Valid() && k < |all| && Enabled(all[k].Val(), Closes(s))
      modifies this, all, Logs(), disconnectH
      ensures Valid() && TheWorld() == AtRoomIn(old(TheWorld()), k, Closes(s))
    {
      ghost var w := TheWorld();
      assert w.rooms[k] == all[k].Val();
      var fired := all[k].CloseSlot(s);
      OneRoomChanged(k);
      EndKeepsClosed(w.rooms[k], s);
      if fired {
        HandleRoomEnd(k);
      }
      AtRoomIndexOk(w, k, Closes(s));
    }

    /** The forfeit timer of (id, s) fires. */
    method OnForfeit(id: string, s: Slot)
      requires Valid() && (id, s) in disconnectH.active
      modifies this, all, Logs(), disconnectH
      ensures Valid() && TheWorld() == old(Next(TheWorld(), TimerFires((id, s))))
    {
      ghost var w := TheWorld();
      var k := disconnectH.active[(id, s)];
      assert w.rooms[k] == all[k].Val();
      disconnectH.active := disconnectH.active - {(id, s)};
      var fired := all[k].EndMatch(LossOf(s, Forfeit, 0));
      OneRoomChanged(k);
      if fired {
        HandleRoomEnd(k);
      }
      TimersReplaced(w, w.timers - {(id, s)});
      AtRoomIndexOk(w.(timers := w.timers - {(id, s)}), k, Forfeits(s));
    }

    /** A message on an attached socket. */
    method OnMessage(k: nat, s: Slot, data: seq<byte>, parseBody: seq<byte> -> Option<ClientMsg>)
      requires Valid() && k < |all| && all[k].slots[s].Some?
      requires forall o: Slot :: all[k].slots[o].Some? ==>
                 all[k].slots[o].value.seqNo + |all[k].slots[o].value.pending| < 0x1_0000
      modifies this, all, Logs(), disconnectH
      ensures Valid() && TheWorld() == AtRoomIn(old(TheWorld()), k, Says(s, DecodeClientMsg(data, parseBody)))
    {
      ghost var w := TheWorld();
      assert w.rooms[k] == all[k].Val();
      all[k].Receive(s, data, parseBody);
      OneRoomChanged(k);
      AtRoomIndexOk(w, k, Says(s, DecodeClientMsg(data, parseBody)));
    }

    /** A forfeit timer is started, unless one runs for that id and slot already. */
    method StartTimer(k: nat, s: Slot)
      requires Valid() && k < |all|
      modifies disconnectH
      ensures Valid() && TheWorld() == Next(old(TheWorld()), WorldEvent.StartTimer(k, s))
    {
      ghost var w := TheWorld();
      disconnectH.Start(all[k].cfg.roomId, k, s);
      assert w.rooms[k] == all[k].Val();
      TimersReplaced(w, disconnectH.active);
    }

    /** The ping timer of a room fires. */
    method OnPing(k: nat, timestamp: nat)
      requires Valid() && k < |all| && Enabled(all[k].Val(), Pings(timestamp))
      modifies all
      ensures Valid() && TheWorld() == AtRoomIn(old(TheWorld()), k, Pings(timestamp))
    {
      ghost var w := TheWorld();
      assert w.rooms[k] == all[k].Val();
      all[k].Ping(timestamp);
      OneRoomChanged(k);
      AtRoomIndexOk(w, k, Pings(timestamp));
    }

    /** The socket of an attached slot leaves the open state; its close event comes later. */
    method OnDrop(k: nat, s: Slot)
      requires Valid() && k < |all| && Enabled(all[k].Val(), Drops(s))
      modifies all
      ensures Valid() && TheWorld() == AtRoomIn(old(TheWorld()), k, Drops(s))
    {
      ghost var w := TheWorld();
      assert w.rooms[k] == all[k].Val();
      all[k].SocketDown(s);
      OneRoomChanged(k);
      AtRoomIndexOk(w, k, Drops(s));
    }
  }

  lemma EndKeepsClosed(r: Room, s: Slot)
    requires r.Shape()
    ensures HandleClose(r, s).state == Closed
  {
  }
}
