/** The client's lobby and send functions in their own form: global fields updated in place, proved
    against the client steps of module Session. */
module LobbyClient {
  import opened Bytes
  import opened WsStream
  import opened Protocol
  import opened Session

  class LobbyClient {
    const join: JoinInfo
    const slot: Slot             // 0 for the player who created the room
    var link: Link
    var net: NetState
    var sub: Lobby
    var myLoadout: byte
    var loadoutSent: bool
    var oppLoadout: int
    var sim: Option<(int, int)>  // the loadouts simulation_init was called with
    var frame: nat
    var sent: seq<RelayEntry>
    var confirmed: seq<InputEntry>
    var wasReady: bool
    var up: seq<ClientMsg>       // everything handed to the socket

    function Val(): Client
      reads this
    {
      Client(link, net, sub, myLoadout, loadoutSent, oppLoadout, sim, frame, sent, confirmed, wasReady)
    }

    /** This client as a side whose channel loses nothing and has not been read. */
    function TheSide(): Side
      reads this
    {
      Side(join, Val(), up, false, 0, None)
    }

    constructor (info: JoinInfo)
      ensures TheSide() == Side(info, NEW_CLIENT, [], false, 0, None) && slot == info.slot
    {
      join, slot := info, info.slot;
      link, net, sub := NotDialed, Idle, ChoosingRole;
      myLoadout, loadoutSent, oppLoadout, sim := 0, false, -1, None;
      frame, sent, confirmed, wasReady, up := 0, [], [], false, [];
    }

    method AckStart()
      modifies this`net
      ensures net == if old(net) == Ready then Fighting else old(net)
    {
      if net == Ready { net := Fighting; }
    }

    /** One frame of the lobby: a started match moves on to loadout selection, and two known
        loadouts start the simulation. */
    method LobbyTick()
      modifies this
      ensures TheSide() == SideStep(old(TheSide()), Session.LobbyTick, slot, [])
    {
      if sub == BeforeMatch && net == Ready {
        sub := PickingLoadout;
        AckStart();
      }
      if sub == PickingLoadout && myLoadout != 0 {
        var opp := oppLoadout;
        if opp >= 0 {
          sub := InFight;
          var p1 := if slot == 0 then myLoadout as int else opp;
          var p2 := if slot == 0 then opp else myLoadout as int;
          sim := Some((p1, p2));
        }
      }
    }

    method SendLoadout(k: byte)
      modifies this`up
      ensures up == if link == Up then old(up) + [Loadout(k)] else old(up)
    {
      if link != Up { return; }
      up := up + [Loadout(k)];
    }

    /** A press on a loadout button: the first one in the selection screen counts, later ones do not. */
    method PressLoadout(k: byte)
      requires 1 <= k <= 2
      modifies this
      ensures TheSide() ==
              if CanDo(old(TheSide()), Pick(k), 0) then SideStep(old(TheSide()), Pick(k), slot, []) else old(TheSide())
    {
      if sub == PickingLoadout && !loadoutSent {
        myLoadout := k;
        SendLoadout(k);
        loadoutSent := true;
      }
    }

    method SendInput(f: nat, input: uint16)
      requires f < 0x8000_0000
      modifies this`up, this`sent
      ensures (net == Fighting || net == Ready) && link == Up ==>
                up == old(up) + [Input(f % 0x1_0000, f, input)] && sent == old(sent) + [RelayEntry(f, input)]
      ensures !((net == Fighting || net == Ready) && link == Up) ==> up == old(up) && sent == old(sent)
    {
      if net != Fighting && net != Ready { return; }
      if link != Up { return; }
      up := up + [Input(f % 0x1_0000, f, input)];
      sent := sent + [RelayEntry(f, input)];
    }

    /** One tick of the fixed-step loop: the frame counter moves on, and in a fight the local input goes out. */
    method FixedTick(input: uint16)
      requires frame + 1 < 0x8000_0000
      modifies this
      ensures TheSide() ==
              SideStep(old(TheSide()), if old(sub) == InFight then FightTick(input) else IdleTick, slot, [])
    {
      frame := frame + 1;
      if sub == InFight {
        SendInput(frame, input);
      }
    }
  }
}
