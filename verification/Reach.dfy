/** States that runs of the simulation reach: where an un-hit fighter can be, and an attack that does
    land, from one side only. */
module Reach {
  import opened Bytes
  import opened Fighters
  import opened Simulation
  import opened JumpArc
  import opened Mirror

  // ----- An un-hit fighter stands on the ground or flies a jump -----

  predicate Grounded(f: FighterVal) {
    && OnGround(f.combat.state) && f.body.y == GROUND_Y && f.body.vy == 0.0
    && f.combat.hitstun == 0 && f.combat.blockstun == 0 && |f.boxes.hitboxes| == 4
  }

  ghost predicate GroundedOrOnArc(f: FighterVal) {
    Grounded(f) || exists k: nat :: k < LandingTick(JumpSpeed(f.id)) && OnArc(f, f.id, k)
  }

  lemma LaunchedIsOnArc(f: FighterVal)
    requires Launched(f, JumpSpeed(f.id))
    ensures GroundedOrOnArc(f)
  {
    assert OnArc(f, f.id, 0);
  }

  lemma GroundTick(f: FighterVal, input: uint16, x: real)
    requires Grounded(f)
    ensures var g := Tick(f, input, x);
            g.id == f.id && if Up(input) then Launched(g, JumpSpeed(f.id)) else Grounded(g)
  {
    if Up(input) {
      UpLaunches(f, input, x);
    }
  }

  /** A jump that reaches the ground ends there, and pressing up starts the next one at once. */
  lemma TouchDown(f: FighterVal, input: uint16, x: real)
    requires Floating(f) && NextHeight(f.body) >= GROUND_Y
    ensures var g := Tick(f, input, x);
            g.id == f.id && if Up(input) then Launched(g, JumpSpeed(f.id)) else Grounded(g)
  {
    var p := Physics(Face(f, x));
    assert p.body.y == GROUND_Y && p.body.vy == 0.0;
    var c := CancelOnLanding(p);
    assert OnGround(c.combat.state) && c.body.y == GROUND_Y;
  }

  lemma TickStaysOnArc(f: FighterVal, input: uint16, x: real)
    requires GroundedOrOnArc(f)
    ensures GroundedOrOnArc(Tick(f, input, x))
  {
    var g := Tick(f, input, x);
    if Grounded(f) {
      GroundTick(f, input, x);
      if Up(input) {
        LaunchedIsOnArc(g);
      }
    } else {
      var k: nat :| k < LandingTick(JumpSpeed(f.id)) && OnArc(f, f.id, k);
      if k + 1 < LandingTick(JumpSpeed(f.id)) {
        var same := Nudge(f.body.x, f.boxes.count);
        assert Nudged(f, same) == f;
        FlightStep(f, same, input, x, g, f.id, k, k + 1);
      } else {
        ArcStep(f, f.id, k);
        TouchDown(f, input, x);
        if Up(input) {
          LaunchedIsOnArc(g);
        }
      }
    }
  }

  lemma NudgeStaysOnArc(f: FighterVal, n: Nudge)
    requires GroundedOrOnArc(f)
    ensures GroundedOrOnArc(Nudged(f, n))
  {
    if !Grounded(f) {
      var k: nat :| k < LandingTick(JumpSpeed(f.id)) && OnArc(f, f.id, k);
      assert OnArc(Nudged(f, n), f.id, k);
    }
  }

  /** A fighter that is not hit in a tick only ticks, may be pushed, and may lose its hitbox. */
  lemma UnhitTick(t: Trace, in1: uint16, in2: uint16) returns (n1: Nudge, n2: Nudge)
    requires TraceOk(t) && !t.sim.round.matchOver
    ensures var t' := TraceTick(t, in1, in2);
            var (m1, m2) := Moved(t.sim, in1, in2);
            && (|t'.taken1| > |t.taken1| || (t'.taken1 == t.taken1 && t'.sim.p1 == Nudged(m1, n1)))
            && (|t'.taken2| > |t.taken2| || (t'.taken2 == t.taken2 && t'.sim.p2 == Nudged(m2, n2)))
  {
    var s' := TraceTick(t, in1, in2).sim;
    n1, n2 := Nudge(s'.p1.body.x, s'.p1.boxes.count), Nudge(s'.p2.body.x, s'.p2.boxes.count);
  }

  /** In every run, a fighter that has not been hit is standing on the ground or on the arc of a jump,
      some number of ticks after its launch and before its landing. */
  lemma {:induction false} UnhitIsOnArc(id1: int, id2: int, l1: int, l2: int, inputs: seq<(uint16, uint16)>)
    ensures var t := RunSim(id1, id2, l1, l2, inputs);
            && (t.taken1 == [] ==> GroundedOrOnArc(t.sim.p1))
            && (t.taken2 == [] ==> GroundedOrOnArc(t.sim.p2))
    decreases |inputs|
  {
    if inputs != [] {
      var n := |inputs| - 1;
      var t, in1, in2 := RunSim(id1, id2, l1, l2, inputs[..n]), inputs[n].0, inputs[n].1;
      UnhitIsOnArc(id1, id2, l1, l2, inputs[..n]);
      MatchNeverOver(id1, id2, l1, l2, inputs[..n]);
      UnhitStep(t, in1, in2);
    }
  }

  lemma UnhitStep(t: Trace, in1: uint16, in2: uint16)
    requires TraceOk(t) && !t.sim.round.matchOver
    requires t.taken1 == [] ==> GroundedOrOnArc(t.sim.p1)
    requires t.taken2 == [] ==> GroundedOrOnArc(t.sim.p2)
    ensures var t' := TraceTick(t, in1, in2);
            && (t'.taken1 == [] ==> GroundedOrOnArc(t'.sim.p1))
            && (t'.taken2 == [] ==> GroundedOrOnArc(t'.sim.p2))
  {
    var n1, n2 := UnhitTick(t, in1, in2);
    var m1 := Tick(t.sim.p1, in1, t.sim.p2.body.x);
    if t.taken1 == [] {
      TickStaysOnArc(t.sim.p1, in1, t.sim.p2.body.x);
      NudgeStaysOnArc(m1, n1);
    }
    if t.taken2 == [] {
      TickStaysOnArc(t.sim.p2, in2, m1.body.x);
      NudgeStaysOnArc(Tick(t.sim.p2, in2, m1.body.x), n2);
    }
  }

  // ----- The same attack from both sides -----

  /** Ticks of walking that bring two fighters from their starting places to 90 apart. */
  const WALK: nat := 177

  /** What the attacker of slot s presses at tick n: walk up, jump, punch at once, let go. */
  function Press(s: int, n: nat): uint16 {
    if n < WALK then (if s == 0 then 8 else 4) else if n == WALK then 1 else if n == WALK + 1 then 16 else 0
  }

  function FirstInput(s: int, n: nat): uint16 {
    if s == 0 then Press(s, n) else 0
  }

  function SecondInput(s: int, n: nat): uint16 {
    if s == 0 then 0 else Press(s, n)
  }

  function Plan(s: int, n: nat): seq<(uint16, uint16)> {
    if n == 0 then []
    else Plan(s, n - 1) + [(FirstInput(s, n - 1), SecondInput(s, n - 1))]
  }

  function Side(s: int): int {
    if s == 0 then 1 else -1
  }

  /** A fighter of slot s that has stood for n ticks. */
  function Stander(s: int, n: nat): FighterVal {
    var f := WithLoadout(Init(0, s), 0);
    f.(combat := f.combat.(stateFrame := n))
  }

  /** Where the attacker is after it has moved in n ticks. */
  function WalkedX(s: int, n: nat): real {
    StartBody(s).x + Side(s) as real * n as real * 10.0 / 3.0
  }

  /** The attacker after n ticks: walking, launched, or k ticks into its jump and its punch. */
  function Attacker(s: int, n: nat): FighterVal
    requires n <= WALK + 8
  {
    var f := Stander(s, n);
    var dir := Side(s);
    if n == 0 then f
    else if n <= WALK then
      f.(body := f.body.(x := WalkedX(s, n - 1), vx := 200.0 * dir as real),
         combat := f.combat.(state := WalkFwd), prevInput := Press(s, 0))
    else if n == WALK + 1 then
      f.(body := f.body.(x := WalkedX(s, WALK), vy := -900.0),
         combat := f.combat.(state := JumpNeutral, stateFrame := 1), prevInput := 1)
    else
      var k := n - WALK - 1;
      f.(body := f.body.(x := WalkedX(s, WALK), y := Height(900, k), vy := (30 * k - 930) as real),
         combat := f.combat.(state := Attack, stateFrame := k, moveId := 3), prevInput := Press(s, n - 1),
         boxes := if k < 7 then f.boxes else Boxes(f.boxes.hitboxes[0 := MOVES[3].hitbox], 1, f.boxes.hurtbox,
             MOVES[3].hit))
  }

  lemma StanderTick(s: int, n: nat, x: real)
    requires s == 0 || s == 1
    requires (x - StartBody(s).x) * Side(s) as real > 0.0
    ensures Tick(Stander(s, n), 0, x) == Stander(s, n + 1)
  {
  }

  /** A fighter of slot s walking forward at x, and one tick later. */
  function Walker(s: int, x: real, n: nat): FighterVal {
    var f := Stander(s, n);
    f.(body := f.body.(x := x, vx := 200.0 * Side(s) as real), combat := f.combat.(state := WalkFwd),
        prevInput := Press(s, 0))
  }

  lemma WalkerTick(s: int, x: real, n: nat, opponentX: real)
    requires s == 0 || s == 1
    requires STAGE_LEFT + 10.0 < x < STAGE_RIGHT - 10.0 && (opponentX - x) * Side(s) as real > 0.0
    ensures Tick(Walker(s, x, n), Press(s, 0), opponentX) == Walker(s, x + Side(s) as real * 10.0 / 3.0, n + 1)
  {
  }

  lemma WalkedMore(s: int, n: nat)
    requires s == 0 || s == 1
    ensures WalkedX(s, n + 1) == WalkedX(s, n) + Side(s) as real * 10.0 / 3.0
    ensures n <= WALK ==> 290.0 <= WalkedX(s, n) <= 990.0
  {
  }

  lemma FirstWalkTick(s: int, x: real)
    requires (s == 0 || s == 1) && (x - StartBody(s).x) * Side(s) as real > 10.0
    ensures Tick(Stander(s, 0), Press(s, 0), x) == Walker(s, StartBody(s).x, 1)
  {
  }

  lemma WalkOn(s: int, n: nat, x: real, next: nat)
    requires (s == 0 || s == 1) && 0 < n < WALK && x == StartBody(1 - s).x && next == n + 1
    ensures Tick(Walker(s, WalkedX(s, n - 1), n), Press(s, 0), x) == Walker(s, WalkedX(s, n), next)
  {
    WalkedMore(s, n - 1);
    WalkerTick(s, WalkedX(s, n - 1), n, x);
  }

  lemma AttackerWalks(s: int, n: nat)
    requires (s == 0 || s == 1) && 0 < n <= WALK
    ensures Attacker(s, n) == Walker(s, WalkedX(s, n - 1), n)
  {
  }

  lemma WalkTick(s: int, n: nat, x: real)
    requires (s == 0 || s == 1) && n < WALK && x == StartBody(1 - s).x
    ensures Tick(Attacker(s, n), Press(s, n), x) == Attacker(s, n + 1)
  {
    AttackerWalks(s, n + 1);
    assert Press(s, n) == Press(s, 0);
    if n == 0 {
      FirstWalkTick(s, x);
    } else {
      AttackerWalks(s, n);
      WalkOn(s, n, x, n + 1);
    }
  }

  lemma JumpTick(s: int, x: real)
    requires (s == 0 || s == 1) && (x - WalkedX(s, WALK)) * Side(s) as real > 10.0
    ensures Tick(Attacker(s, WALK), Press(s, WALK), x) == Attacker(s, WALK + 1)
  {
  }

  lemma PunchTick(s: int, k: nat, x: real)
    requires (s == 0 || s == 1) && k < 7
    ensures Tick(Attacker(s, WALK + 1 + k), Press(s, WALK + 1 + k), x) == Attacker(s, WALK + 2 + k)
  {
    assert k == 0 || k == 1 || k == 2 || k == 3 || k == 4 || k == 5 || k == 6;
  }

  lemma AttackerTick(s: int, n: nat, x: real)
    requires (s == 0 || s == 1) && n < WALK + 8 && x == StartBody(1 - s).x
    ensures Tick(Attacker(s, n), Press(s, n), x) == Attacker(s, n + 1)
  {
    if n < WALK {
      WalkTick(s, n, x);
    } else if n == WALK {
      JumpTick(s, x);
    } else {
      PunchTick(s, n - WALK - 1, x);
    }
  }

  /** Nobody is armed and the fighters are apart. */
  predicate Quiet(m: (FighterVal, FighterVal)) {
    m.0.boxes.count == 0 && m.1.boxes.count == 0 && Fighters.Abs(m.1.body.x - m.0.body.x) >= 60.0
  }

  /** Then a tick of the simulation is a tick of each fighter. */
  lemma QuietTick(t: Trace, in1: uint16, in2: uint16, m: (FighterVal, FighterVal))
    requires TraceOk(t) && !t.sim.round.matchOver && m == Moved(t.sim, in1, in2) && Quiet(m)
    ensures var t' := TraceTick(t, in1, in2);
            (t'.sim.p1, t'.sim.p2) == m && t'.taken1 == t.taken1 && t'.taken2 == t.taken2
  {
  }

  lemma AttackerBody(s: int, n: nat)
    requires (s == 0 || s == 1) && n <= WALK + 8
    ensures Fighters.Abs(StartBody(1 - s).x - Attacker(s, n).body.x) >= 60.0
    ensures (StartBody(s).x - StartBody(1 - s).x) * Side(1 - s) as real > 0.0
    ensures (Attacker(s, n).body.x - StartBody(1 - s).x) * Side(1 - s) as real > 0.0
  {
  }

  /** The two fighters after n ticks of the plan. */
  function PlanPair(s: int, n: nat): (FighterVal, FighterVal)
    requires n <= WALK + 8
  {
    if s == 0 then (Attacker(0, n), Stander(1, n)) else (Stander(0, n), Attacker(1, n))
  }

  /** Nobody has been hit before the punch becomes live. */
  ghost predicate PlanState(t: Trace, s: int, n: nat)
    requires n <= WALK + 8
  {
    !t.sim.round.matchOver && t.taken1 == [] && t.taken2 == [] && (t.sim.p1, t.sim.p2) == PlanPair(s, n)
  }

  lemma PlanMoves(t: Trace, s: int, n: nat)
    requires (s == 0 || s == 1) && n < WALK + 8 && TraceOk(t) && PlanState(t, s, n)
    ensures Moved(t.sim, FirstInput(s, n), SecondInput(s, n)) == PlanPair(s, n + 1)
  {
    AttackerBody(s, n);
    AttackerBody(s, n + 1);
    AttackerTick(s, n, StartBody(1 - s).x);
    StanderTick(1 - s, n, if s == 0 then Attacker(s, n + 1).body.x else Attacker(s, n).body.x);
  }

  lemma PlanIsQuiet(s: int, n: nat)
    requires (s == 0 || s == 1) && n <= WALK + 7
    ensures Quiet(PlanPair(s, n))
  {
    AttackerBody(s, n);
  }

  lemma PlanStart(s: int)
    requires s == 0 || s == 1
    ensures PlanWorks(s, 0)
  {
    var p: seq<(uint16, uint16)> := [];
    assert p == Plan(s, 0) && PlanState(RunSim(0, 0, 0, 0, p), s, 0);
  }

  lemma PlanTick(t: Trace, s: int, n: nat)
    requires (s == 0 || s == 1) && n < WALK + 7 && TraceOk(t) && PlanState(t, s, n)
    requires !TraceTick(t, FirstInput(s, n), SecondInput(s, n)).sim.round.matchOver
    ensures PlanState(TraceTick(t, FirstInput(s, n), SecondInput(s, n)), s, n + 1)
  {
    PlanMoves(t, s, n);
    PlanIsQuiet(s, n + 1);
    QuietTick(t, FirstInput(s, n), SecondInput(s, n), PlanPair(s, n + 1));
  }

  lemma NeverOver(inputs: seq<(uint16, uint16)>, t: Trace)
    requires t == RunSim(0, 0, 0, 0, inputs)
    ensures !t.sim.round.matchOver
  {
    MatchNeverOver(0, 0, 0, 0, inputs);
  }

  lemma SimStep(inputs: seq<(uint16, uint16)>, t: Trace, in1: uint16, in2: uint16)
    requires t == RunSim(0, 0, 0, 0, inputs)
    ensures RunSim(0, 0, 0, 0, inputs + [(in1, in2)]) == TraceTick(t, in1, in2)
  {
    assert (inputs + [(in1, in2)])[..|inputs|] == inputs;
  }

  /** The plan of n ticks leads to the fighters it should. */
  ghost predicate PlanWorks(s: int, n: nat)
    requires n <= WALK + 8
  {
    exists p: seq<(uint16, uint16)> :: p == Plan(s, n) && PlanState(RunSim(0, 0, 0, 0, p), s, n)
  }

  lemma PlanNext(s: int, n: nat, next: nat)
    requires (s == 0 || s == 1) && n < WALK + 7 && next == n + 1 && PlanWorks(s, n)
    ensures PlanWorks(s, next)
  {
    var p :| p == Plan(s, n) && PlanState(RunSim(0, 0, 0, 0, p), s, n);
    var before, in1, in2 := RunSim(0, 0, 0, 0, p), FirstInput(s, n), SecondInput(s, n);
    var p', t := p + [(in1, in2)], TraceTick(before, in1, in2);
    SimStep(p, before, in1, in2);
    NeverOver(p', t);
    PlanTick(before, s, n);
    assert p' == Plan(s, next) && PlanState(RunSim(0, 0, 0, 0, p'), s, next);
  }

  lemma {:induction false} PlanRun(s: int, n: nat)
    requires (s == 0 || s == 1) && n <= WALK + 7
    ensures PlanWorks(s, n)
    decreases n
  {
    if n == 0 {
      PlanStart(s);
    } else {
      PlanRun(s, n - 1);
      PlanNext(s, n - 1, n);
    }
  }

  lemma LivePunch(s: int)
    requires s == 0 || s == 1
    ensures var a, d := Attacker(s, WALK + 8), Stander(1 - s, WALK + 8);
            && a.boxes.count == 1 && d.boxes.count == 0 && a.boxes.props.damage == 50
            && Fighters.Abs(d.body.x - a.body.x) >= 60.0 && Fighters.Abs(a.body.x - d.body.x) >= 60.0
            && HeightsMeet(a, d, 0) && Ahead(a, d) == 90.0
            && (Hits(a, d) <==> s == 0)
  {
    var a, d := Attacker(s, WALK + 8), Stander(1 - s, WALK + 8);
    assert Height(900, 7) == 445.5;
    assert HeightsMeet(a, d, 0) && Ahead(a, d) == 90.0;
    LightPunchOnlyToTheRight(a, d);
  }

  lemma PunchLands(t: Trace)
    requires TraceOk(t) && PlanState(t, 0, WALK + 7)
    ensures var t' := TraceTick(t, FirstInput(0, WALK + 7), SecondInput(0, WALK + 7));
            t'.taken2 == [50] && t'.sim.p2.combat.state == Hit
  {
    PlanMoves(t, 0, WALK + 7);
    LivePunch(0);
    LandedTick(t, Press(0, WALK + 7), Attacker(0, WALK + 8), Stander(1, WALK + 8));
  }

  lemma LandedTick(t: Trace, input: uint16, m1: FighterVal, m2: FighterVal)
    requires TraceOk(t) && !t.sim.round.matchOver && t.taken2 == [] && (m1, m2) == Moved(t.sim, input, 0)
    requires Hits(m1, m2) && m1.boxes.props.damage == 50 && m1.damagePct == 100 && m2.boxes.count == 0 && !Guards(m2)
    ensures var t' := TraceTick(t, input, 0); t'.taken2 == [50] && t'.sim.p2.combat.state == Hit
  {
  }

  lemma PunchMisses(t: Trace)
    requires TraceOk(t) && PlanState(t, 1, WALK + 7)
    ensures var t' := TraceTick(t, FirstInput(1, WALK + 7), SecondInput(1, WALK + 7));
            && t'.taken1 == [] && t'.sim.p2.boxes.count == 1
            && HeightsMeet(t'.sim.p2, t'.sim.p1, 0) && Ahead(t'.sim.p2, t'.sim.p1) == 90.0
  {
    PlanMoves(t, 1, WALK + 7);
    LivePunch(1);
    MissedTick(t, Press(1, WALK + 7), Stander(0, WALK + 8), Attacker(1, WALK + 8));
  }

  lemma MissedTick(t: Trace, input: uint16, m1: FighterVal, m2: FighterVal)
    requires TraceOk(t) && !t.sim.round.matchOver && (m1, m2) == Moved(t.sim, 0, input)
    requires m1.boxes.count == 0 && !Hits(m2, m1) && Fighters.Abs(m2.body.x - m1.body.x) >= 60.0
    ensures var t' := TraceTick(t, 0, input); t'.taken1 == t.taken1 && t'.sim.p1 == m1 && t'.sim.p2 == m2
  {
  }

  /** The same attack, mirrored button by button, from the left and from the right: P1's lands for
      50, so hits do happen; P2's, live at the same distance and height, goes through P1. */
  lemma SameAttackFromBothSides()
    ensures var t := RunSim(0, 0, 0, 0, Plan(0, WALK + 8)); t.taken2 == [50] && t.sim.p2.combat.state == Hit
    ensures var t := RunSim(0, 0, 0, 0, Plan(1, WALK + 8));
            && t.taken1 == [] && t.sim.p2.boxes.count == 1
            && HeightsMeet(t.sim.p2, t.sim.p1, 0) && Ahead(t.sim.p2, t.sim.p1) == 90.0
  {
    var n := WALK + 7;
    PlanRun(0, n);
    var p0 :| p0 == Plan(0, n) && PlanState(RunSim(0, 0, 0, 0, p0), 0, n);
    PunchLands(RunSim(0, 0, 0, 0, p0));
    SimStep(p0, RunSim(0, 0, 0, 0, p0), FirstInput(0, n), SecondInput(0, n));
    PlanRun(1, n);
    var p1 :| p1 == Plan(1, n) && PlanState(RunSim(0, 0, 0, 0, p1), 1, n);
    PunchMisses(RunSim(0, 0, 0, 0, p1));
    SimStep(p1, RunSim(0, 0, 0, 0, p1), FirstInput(1, n), SecondInput(1, n));
  }
}
