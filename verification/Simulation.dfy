/** The two-fighter simulation: hit detection, hit resolution with loadout scaling, one tick, and
    what every run keeps. */
module Simulation {
  import opened Bytes
  import opened Fighters
  import Round

  // ----- Hits -----

  predicate RectsOverlap(a: Rect, b: Rect) {
    a.x < b.x + b.w && a.x + a.w > b.x && a.y < b.y + b.h && a.y + a.h > b.y
  }

  /** Hitbox i of the attacker, mirrored when facing left, meets the defender's hurtbox. */
  predicate BoxHits(a: FighterVal, d: FighterVal, i: nat)
    requires i < |a.boxes.hitboxes|
  {
    var hb, hurt := a.boxes.hitboxes[i], d.boxes.hurtbox;
    RectsOverlap(hb.(x := a.body.x + hb.x * a.body.facing as real, y := a.body.y + hb.y),
                 hurt.(x := d.body.x + hurt.x, y := d.body.y + hurt.y))
  }

  predicate Hits(a: FighterVal, d: FighterVal)
    requires a.boxes.count <= |a.boxes.hitboxes|
  {
    exists i :: 0 <= i < a.boxes.count && BoxHits(a, d, i)
  }

  /** Damage scaled by the attacker's loadout, with C's truncating division. */
  function Scale(damage: int, pct: int): int {
    var p := damage * pct;
    if p >= 0 then p / 100 else -(-p / 100)
  }

  function ScaledHit(a: FighterVal): HitProperties {
    a.boxes.props.(damage := Scale(a.boxes.props.damage, a.damagePct),
                   chipDamage := Scale(a.boxes.props.chipDamage, a.damagePct))
  }

  predicate Guards(d: FighterVal) {
    d.combat.state == Block || d.combat.state == Crouch
  }

  function Disarm(a: FighterVal): FighterVal {
    a.(boxes := a.boxes.(count := 0))
  }

  /** The attacker's hit if it connects: the two fighters afterwards. */
  function Resolve(a: FighterVal, d: FighterVal): (FighterVal, FighterVal)
    requires a.boxes.count <= |a.boxes.hitboxes|
  {
    if Hits(a, d) then (Disarm(a), ApplyHit(d, ScaledHit(a), Guards(d))) else (a, d)
  }

  /** Does a hit connect, and if so for how much damage unblocked. */
  function DamageDealt(a: FighterVal, d: FighterVal): Option<int>
    requires a.boxes.count <= |a.boxes.hitboxes|
  {
    if Hits(a, d) then Some(ScaledHit(a).damage) else None
  }

  method CheckHit(a: Fighter, d: Fighter) returns (hit: bool)
    requires a.boxes.count <= |a.boxes.hitboxes|
    ensures hit == Hits(a.Val(), d.Val())
  {
    if a.boxes.count == 0 { return false; }
    var i := 0;
    while i < a.boxes.count
      invariant 0 <= i
      invariant forall k :: 0 <= k < i && k < a.boxes.count ==> !BoxHits(a.Val(), d.Val(), k)
    {
      if BoxHits(a.Val(), d.Val(), i) { return true; }
      i := i + 1;
    }
    hit := false;
  }

  method ResolveHit(a: Fighter, d: Fighter)
    requires a != d && a.boxes.count <= |a.boxes.hitboxes|
    modifies a`boxes, d`health, d`body, d`combat
    ensures (a.Val(), d.Val()) == Resolve(old(a.Val()), old(d.Val()))
  {
    var hit := CheckHit(a, d);
    if hit {
      var hp := ScaledHit(a.Val());
      d.TakeHit(hp, d.combat.state == Block || d.combat.state == Crouch);
      a.boxes := a.boxes.(count := 0);
    }
  }

  // ----- The simulation -----

  datatype SimVal = SimVal(p1: FighterVal, p2: FighterVal, round: Round.RoundVal, frame: uint32)

  const FIRE: int := 1
  const FROST: int := 2

  function WithLoadout(f: FighterVal, loadout: int): FighterVal {
    var g := f.(loadout := loadout, damagePct := if loadout == FIRE then 120 else 100);
    if loadout == FROST then g.(health := g.health + 20, maxHealth := g.maxHealth + 20) else g
  }

  function InitSim(id1: int, id2: int, loadout1: int, loadout2: int): SimVal {
    SimVal(WithLoadout(Init(id1, 0), loadout1), WithLoadout(Init(id2, 1), loadout2), Round.FIRST, 0)
  }

  /** Room for four hitboxes, at most one of them live. */
  predicate Armed(f: FighterVal) {
    |f.boxes.hitboxes| == 4 && f.boxes.count <= 1
  }

  predicate Shape(s: SimVal) {
    Armed(s.p1) && Armed(s.p2)
  }

  /** The fighters after both have moved, the second seeing the first one's new position. */
  function Moved(s: SimVal, in1: uint16, in2: uint16): (r: (FighterVal, FighterVal))
    requires Shape(s)
    ensures Armed(r.0) && Armed(r.1)
  {
    var p1 := Tick(s.p1, in1, s.p2.body.x);
    TickShape(s.p1, in1, s.p2.body.x);
    TickShape(s.p2, in2, p1.body.x);
    (p1, Tick(s.p2, in2, p1.body.x))
  }

  /** P1's hit is resolved before P2's, so both can land in one tick. */
  function Resolved(m1: FighterVal, m2: FighterVal): (r: (FighterVal, FighterVal))
    requires Armed(m1) && Armed(m2)
    ensures Armed(r.0) && Armed(r.1)
  {
    var (a1, a2) := Resolve(m1, m2);
    var (b2, b1) := Resolve(a2, a1);
    (b1, b2)
  }

  function Pushed(p1: FighterVal, p2: FighterVal): (FighterVal, FighterVal) {
    var (x1, x2) := PushApart(p1.body.x, p2.body.x);
    (p1.(body := p1.body.(x := x1)), p2.(body := p2.body.(x := x2)))
  }

  /** The fighters at the end of a tick. */
  function Fought(s: SimVal, in1: uint16, in2: uint16): (FighterVal, FighterVal)
    requires Shape(s)
  {
    var m := Moved(s, in1, in2);
    var b := Resolved(m.0, m.1);
    Pushed(b.0, b.1)
  }

  function SimTick(s: SimVal, in1: uint16, in2: uint16): SimVal
    requires Shape(s)
  {
    if s.round.matchOver then s
    else
      var p := Fought(s, in1, in2);
      SimVal(p.0, p.1, Round.Tick(s.round, p.0.health, p.1.health), (s.frame + 1) % 0x1_0000_0000)
  }

  lemma SimTickParts(s: SimVal, in1: uint16, in2: uint16, p: (FighterVal, FighterVal))
    requires Shape(s) && !s.round.matchOver && p == Fought(s, in1, in2)
    ensures SimTick(s, in1, in2)
         == SimVal(p.0, p.1, Round.Tick(s.round, p.0.health, p.1.health), (s.frame + 1) % 0x1_0000_0000)
  {
  }

  lemma AfterTheFight(s: SimVal, in1: uint16, in2: uint16, s': SimVal)
    requires Shape(s) && !s.round.matchOver && (s'.p1, s'.p2) == Fought(s, in1, in2)
    requires s'.round == Round.Tick(s.round, s'.p1.health, s'.p2.health) && s'.frame == (s.frame + 1) % 0x1_0000_0000
    ensures s' == SimTick(s, in1, in2)
  {
    SimTickParts(s, in1, in2, (s'.p1, s'.p2));
  }

  lemma TickShape(f: FighterVal, input: uint16, x: real)
    requires Armed(f)
    ensures Armed(Tick(f, input, x))
  {
  }

  class Simulation {
    const p1: Fighter
    const p2: Fighter
    const round: Round.RoundState
    var frame: uint32

    ghost predicate Valid()
      reads this, p1, p2
    {
      p1 != p2 && Armed(p1.Val()) && Armed(p2.Val())
    }

    function Save(): SimVal
      reads this, p1, p2, round
    {
      SimVal(p1.Val(), p2.Val(), round.Val(), frame)
    }

    constructor (id1: int, id2: int, loadout1: int, loadout2: int)
      ensures Valid() && Save() == InitSim(id1, id2, loadout1, loadout2)
      ensures fresh(p1) && fresh(p2) && fresh(round)
    {
      p1 := new Fighter(id1, 0);
      p2 := new Fighter(id2, 1);
      round := new Round.RoundState();
      frame := 0;
      new;
      ApplyLoadout(p1, loadout1);
      ApplyLoadout(p2, loadout2);
    }

    static method ApplyLoadout(f: Fighter, loadout: int)
      modifies f
      ensures f.Val() == WithLoadout(old(f.Val()), loadout)
    {
      f.loadout := loadout;
      f.damagePct := 100;
      if loadout == FIRE {
        f.damagePct := 120;
      } else if loadout == FROST {
        f.health := f.health + 20;
        f.maxHealth := f.maxHealth + 20;
      }
    }

    method PushFighters()
      requires Valid()
      modifies p1`body, p2`body
      ensures Valid() && (p1.Val(), p2.Val()) == Pushed(old(p1.Val()), old(p2.Val()))
    {
      var dx := p2.body.x - p1.body.x;
      var dist := Abs(dx);
      if dist < 60.0 && dist > 0.1 {
        var push := (60.0 - dist) * 0.5;
        var dir := if dx > 0.0 then 1.0 else -1.0;
        p1.body := p1.body.(x := p1.body.x - push * dir);
        p2.body := p2.body.(x := p2.body.x + push * dir);
        p1.ClampToStage();
        p2.ClampToStage();
      }
    }

    /** Both fighters move, P1 first. */
    method MoveFighters(in1: uint16, in2: uint16)
      requires Valid()
      modifies p1, p2
      ensures Valid() && (p1.Val(), p2.Val()) == Moved(old(Save()), in1, in2)
    {
      TickShape(p1.Val(), in1, p2.body.x);
      p1.TickOnce(in1, p2);
      TickShape(p2.Val(), in2, p1.body.x);
      p2.TickOnce(in2, p1);
    }

    method ResolveHits()
      requires Valid()
      modifies p1, p2
      ensures Valid() && (p1.Val(), p2.Val()) == Resolved(old(p1.Val()), old(p2.Val()))
    {
      ResolveHit(p1, p2);
      ResolveHit(p2, p1);
    }

    method TickFighters(in1: uint16, in2: uint16)
      requires Valid()
      modifies p1, p2
      ensures Valid() && (p1.Val(), p2.Val()) == Fought(old(Save()), in1, in2)
    {
      MoveFighters(in1, in2);
      ResolveHits();
      PushFighters();
    }

    /** The round sees the fighters' health, and the frame counter moves on. */
    method AdvanceRound()
      requires Valid()
      modifies this, round
      ensures p1.Val() == old(p1.Val()) && p2.Val() == old(p2.Val())
      ensures round.Val() == Round.Tick(old(round.Val()), p1.Val().health, p2.Val().health)
      ensures frame == (old(frame) + 1) % 0x1_0000_0000
    {
      round.TickOnce(p1.health, p2.health);
      frame := (frame + 1) % 0x1_0000_0000;
    }

    method TickOnce(in1: uint16, in2: uint16)
      requires Valid()
      modifies this, p1, p2, round
      ensures Valid() && Save() == SimTick(old(Save()), in1, in2)
    {
      if round.matchOver { return; }
      ghost var s := Save();
      TickFighters(in1, in2);
      AdvanceRound();
      AfterTheFight(s, in1, in2, Save());
    }

    /** Restoring a snapshot overwrites the whole state. */
    method Restore(s: SimVal)
      requires p1 != p2 && Shape(s)
      modifies this, p1, p2, round
      ensures Valid() && Save() == s
    {
      p1.Assign(s.p1);
      p2.Assign(s.p2);
      round.p1RoundsWon, round.p2RoundsWon, round.frameTimer := s.round.p1Won, s.round.p2Won, s.round.timer;
      round.roundNumber, round.roundOver := s.round.number, s.round.over;
      round.matchOver, round.winnerSlot := s.round.matchOver, s.round.winner;
      frame := s.frame;
    }
  }

  // ----- What every run keeps -----

  /** An attack is an air attack from the move table, and a live hitbox is that of an air attack. */
  predicate AttackOk(f: FighterVal) {
    && (f.combat.state == Attack ==> GetData(f.id).Some? && 3 <= f.combat.moveId <= 4)
    && 0 <= f.boxes.count <= 1
    && (f.boxes.count == 1 ==> f.boxes.props == MOVES[3].hit || f.boxes.props == MOVES[4].hit)
  }

  /** On the stage, not below the ground, not blocking, with stun counters that have not run negative. */
  predicate PlaceOk(f: FighterVal) {
    && STAGE_LEFT <= f.body.x <= STAGE_RIGHT && f.body.y <= GROUND_Y
    && f.combat.hitstun >= 0 && f.combat.blockstun == 0
    && (OnGround(f.combat.state) || Jumping(f.combat.state) || f.combat.state == Attack || f.combat.state == Hit)
  }

  /** What does not change during a match. */
  predicate GearOk(f: FighterVal) {
    && (f.damagePct == 100 || f.damagePct == 120) && (f.maxHealth == 1000 || f.maxHealth == 1020)
    && |f.boxes.hitboxes| == 4
  }

  /** Health and combo counter are determined by the list of damage taken so far. */
  predicate HealthOk(f: FighterVal, taken: seq<int>) {
    && f.combat.combo == |taken|
    && f.health == NotNegative(f.maxHealth - Total(taken))
  }

  function Total(taken: seq<int>): int {
    if taken == [] then 0 else Total(taken[..|taken| - 1]) + taken[|taken| - 1]
  }

  predicate FighterOk(f: FighterVal, taken: seq<int>) {
    AttackOk(f) && PlaceOk(f) && GearOk(f) && HealthOk(f, taken)
  }

  lemma ActKeeps(f: FighterVal, input: uint16)
    requires AttackOk(f) && PlaceOk(f) && GearOk(f)
    ensures var g := Act(f, input);
            AttackOk(g) && PlaceOk(g) && GearOk(g) && g.health == f.health && g.maxHealth == f.maxHealth
            && g.combat.combo == f.combat.combo
  {
  }

  lemma TickKeeps(f: FighterVal, input: uint16, x: real, taken: seq<int>)
    requires FighterOk(f, taken)
    ensures FighterOk(Tick(f, input, x), taken)
  {
    if f.combat.hitstun == 0 {
      var g := CancelOnLanding(Physics(Face(f, x)));
      assert AttackOk(g) && PlaceOk(g) && GearOk(g);
      ActKeeps(g, input);
    }
  }

  lemma TotalMore(taken: seq<int>, d: int)
    ensures Total(taken + [d]) == Total(taken) + d
  {
    assert (taken + [d])[..|taken|] == taken;
  }

  /** Every hit that lands is unblocked, costs at least 50 and is counted once. */
  lemma ResolveKeeps(a: FighterVal, d: FighterVal, takenA: seq<int>, takenD: seq<int>)
    requires FighterOk(a, takenA) && FighterOk(d, takenD)
    ensures var (a', d') := Resolve(a, d);
            && FighterOk(a', takenA)
            && FighterOk(d', match DamageDealt(a, d) case Some(n) => takenD + [n] case None => takenD)
            && (DamageDealt(a, d).Some? ==> DamageDealt(a, d).value in {50, 60, 90, 108})
  {
    if Hits(a, d) {
      assert a.boxes.count == 1;
      TotalMore(takenD, ScaledHit(a).damage);
    }
  }

  lemma PushKeeps(p1: FighterVal, p2: FighterVal, t1: seq<int>, t2: seq<int>)
    requires FighterOk(p1, t1) && FighterOk(p2, t2)
    ensures var (q1, q2) := Pushed(p1, p2); FighterOk(q1, t1) && FighterOk(q2, t2)
  {
  }

  /** The simulation with the damage each fighter has taken, hit by hit. */
  datatype Trace = Trace(sim: SimVal, taken1: seq<int>, taken2: seq<int>)

  function Logged(taken: seq<int>, d: Option<int>): seq<int> {
    match d case Some(n) => taken + [n] case None => taken
  }

  ghost predicate TraceOk(t: Trace) {
    FighterOk(t.sim.p1, t.taken1) && FighterOk(t.sim.p2, t.taken2)
  }

  function TraceTick(t: Trace, in1: uint16, in2: uint16): Trace
    requires Shape(t.sim)
  {
    if t.sim.round.matchOver then t
    else
      var s := t.sim;
      var (m1, m2) := Moved(s, in1, in2);
      var (a1, a2) := Resolve(m1, m2);
      Trace(SimTick(s, in1, in2), Logged(t.taken1, DamageDealt(a2, a1)), Logged(t.taken2, DamageDealt(m1, m2)))
  }

  lemma TraceKeeps(t: Trace, in1: uint16, in2: uint16)
    requires TraceOk(t)
    ensures TraceOk(TraceTick(t, in1, in2))
  {
    if !t.sim.round.matchOver {
      var (m1, m2) := Moved(t.sim, in1, in2);
      TickKeeps(t.sim.p1, in1, t.sim.p2.body.x, t.taken1);
      TickKeeps(t.sim.p2, in2, m1.body.x, t.taken2);
      ResolveKeeps(m1, m2, t.taken1, t.taken2);
      var (a1, a2) := Resolve(m1, m2);
      var taken2 := Logged(t.taken2, DamageDealt(m1, m2));
      ResolveKeeps(a2, a1, taken2, t.taken1);
      var (b2, b1) := Resolve(a2, a1);
      PushKeeps(b1, b2, Logged(t.taken1, DamageDealt(a2, a1)), taken2);
    }
  }

  function RunSim(id1: int, id2: int, l1: int, l2: int, inputs: seq<(uint16, uint16)>): (t: Trace)
    ensures TraceOk(t)
    decreases |inputs|
  {
    if inputs == [] then
      InitOk(id1, id2, l1, l2);
      Trace(InitSim(id1, id2, l1, l2), [], [])
    else
      var n := |inputs| - 1;
      var t := RunSim(id1, id2, l1, l2, inputs[..n]);
      TraceKeeps(t, inputs[n].0, inputs[n].1);
      TraceTick(t, inputs[n].0, inputs[n].1)
  }

  lemma InitOk(id1: int, id2: int, l1: int, l2: int)
    ensures TraceOk(Trace(InitSim(id1, id2, l1, l2), [], []))
  {
  }

  // ----- The round never restarts -----

  /** The round state after n ticks that nobody restarted. */
  predicate OneRound(r: Round.RoundVal, n: nat) {
    && r.number == 1 && !r.matchOver
    && (if r.over then r.p1Won <= 1 && r.p2Won <= 1 && r.p1Won + r.p2Won >= 1
        else r.p1Won == 0 && r.p2Won == 0 && r.winner == -1 && r.timer == Round.ROUND_FRAMES - n && r.timer >= 1)
  }

  lemma TickKeepsOneRound(r: Round.RoundVal, n: nat, hp1: int, hp2: int)
    requires OneRound(r, n)
    ensures OneRound(Round.Tick(r, hp1, hp2), n + 1)
  {
  }

  lemma CountsOn(n: nat)
    ensures (n % 0x1_0000_0000 + 1) % 0x1_0000_0000 == (n + 1) % 0x1_0000_0000
  {
  }

  /** The round and the frame counter after n ticks that nobody restarted. */
  predicate OneRoundAt(s: SimVal, n: nat) {
    OneRound(s.round, n) && s.frame == n % 0x1_0000_0000
  }

  lemma OneRoundAfterATick(s: SimVal, s': SimVal, in1: uint16, in2: uint16, n: nat)
    requires Shape(s) && OneRoundAt(s, n) && s' == SimTick(s, in1, in2)
    ensures OneRoundAt(s', n + 1)
  {
    var p := Fought(s, in1, in2);
    SimTickParts(s, in1, in2, p);
    CountsOn(n);
    TickKeepsOneRound(s.round, n, p.0.health, p.1.health);
  }

  /** A run ends with the tick of its last inputs. */
  lemma RunLast(id1: int, id2: int, l1: int, l2: int, inputs: seq<(uint16, uint16)>)
    requires inputs != []
    ensures var n := |inputs| - 1;
            RunSim(id1, id2, l1, l2, inputs).sim
            == SimTick(RunSim(id1, id2, l1, l2, inputs[..n]).sim, inputs[n].0, inputs[n].1)
  {
    var n := |inputs| - 1;
    TraceTickSim(RunSim(id1, id2, l1, l2, inputs[..n]), inputs[n].0, inputs[n].1);
  }

  lemma TraceTickSim(t: Trace, in1: uint16, in2: uint16)
    requires Shape(t.sim)
    ensures TraceTick(t, in1, in2).sim == SimTick(t.sim, in1, in2)
  {
  }

  lemma StartIsOneRound(id1: int, id2: int, l1: int, l2: int)
    ensures OneRoundAt(RunSim(id1, id2, l1, l2, []).sim, 0)
  {
  }

  lemma LastIsOneRound(id1: int, id2: int, l1: int, l2: int, inputs: seq<(uint16, uint16)>, before: SimVal, n: nat)
    requires n + 1 == |inputs| && before == RunSim(id1, id2, l1, l2, inputs[..n]).sim && OneRoundAt(before, n)
    ensures OneRoundAt(RunSim(id1, id2, l1, l2, inputs).sim, n + 1)
  {
    RunLast(id1, id2, l1, l2, inputs);
    OneRoundAfterATick(before, RunSim(id1, id2, l1, l2, inputs).sim, inputs[n].0, inputs[n].1, n);
  }

  lemma {:induction false} RunIsOneRound(id1: int, id2: int, l1: int, l2: int, inputs: seq<(uint16, uint16)>, n: nat)
    requires n == |inputs|
    ensures OneRoundAt(RunSim(id1, id2, l1, l2, inputs).sim, n)
    decreases |inputs|
  {
    if n == 0 {
      StartIsOneRound(id1, id2, l1, l2);
    } else {
      RunIsOneRound(id1, id2, l1, l2, inputs[..n - 1], n - 1);
      LastIsOneRound(id1, id2, l1, l2, inputs, RunSim(id1, id2, l1, l2, inputs[..n - 1]).sim, n - 1);
    }
  }

  /** As written, the simulation plays one round: in every run it is still round 1, nobody has won
      two, the match is not over, and the round is over at the latest after 5940 ticks. */
  lemma MatchNeverOver(id1: int, id2: int, l1: int, l2: int, inputs: seq<(uint16, uint16)>)
    ensures var s := RunSim(id1, id2, l1, l2, inputs).sim;
            && OneRound(s.round, |inputs|)
            && s.frame == |inputs| % 0x1_0000_0000
            && (|inputs| >= Round.ROUND_FRAMES ==> s.round.over)
  {
    RunIsOneRound(id1, id2, l1, l2, inputs, |inputs|);
  }

  /** Once it is over the round's state never changes again, whatever is pressed. */
  lemma {:induction false} RoundFrozen(id1: int, id2: int, l1: int, l2: int,
      inputs: seq<(uint16, uint16)>, more: seq<(uint16, uint16)>)
    requires RunSim(id1, id2, l1, l2, inputs).sim.round.over
    ensures RunSim(id1, id2, l1, l2, inputs + more).sim.round == RunSim(id1, id2, l1, l2, inputs).sim.round
    decreases |more|
  {
    if more == [] {
      assert inputs + more == inputs;
    } else {
      var n := |more| - 1;
      RoundFrozen(id1, id2, l1, l2, inputs, more[..n]);
      assert (inputs + more)[..|inputs + more| - 1] == inputs + more[..n];
      var s := RunSim(id1, id2, l1, l2, inputs + more[..n]).sim;
      if !s.round.matchOver {
        SimTickParts(s, more[n].0, more[n].1, Fought(s, more[n].0, more[n].1));
      }
    }
  }

  // ----- The hit state has no exit -----

  lemma TickStaysHit(f: FighterVal, input: uint16, x: real)
    requires |f.boxes.hitboxes| == 4 && f.combat.state == Hit
    ensures Tick(f, input, x).combat.state == Hit
  {
  }

  lemma ResolveStaysHit(a: FighterVal, d: FighterVal)
    requires Armed(a)
    ensures var (a', d') := Resolve(a, d);
            a'.combat.state == a.combat.state && (d.combat.state == Hit ==> d'.combat.state == Hit)
  {
  }

  lemma StaysHitForATick(s: SimVal, in1: uint16, in2: uint16)
    requires Shape(s)
    ensures s.p1.combat.state == Hit ==> SimTick(s, in1, in2).p1.combat.state == Hit
    ensures s.p2.combat.state == Hit ==> SimTick(s, in1, in2).p2.combat.state == Hit
  {
    if !s.round.matchOver {
      var (m1, m2) := Moved(s, in1, in2);
      ResolveStaysHit(m1, m2);
      var (a1, a2) := Resolve(m1, m2);
      ResolveStaysHit(a2, a1);
      if s.p1.combat.state == Hit { TickStaysHit(s.p1, in1, s.p2.body.x); }
      if s.p2.combat.state == Hit { TickStaysHit(s.p2, in2, m1.body.x); }
    }
  }

  /** As written, a fighter that has been hit once stays in the hit state for the rest of the match,
      whatever is pressed. */
  lemma {:induction false} HitForever(id1: int, id2: int, l1: int, l2: int, inputs: seq<(uint16, uint16)>,
      more: seq<(uint16, uint16)>)
    ensures RunSim(id1, id2, l1, l2, inputs).sim.p1.combat.state == Hit ==>
              RunSim(id1, id2, l1, l2, inputs + more).sim.p1.combat.state == Hit
    ensures RunSim(id1, id2, l1, l2, inputs).sim.p2.combat.state == Hit ==>
              RunSim(id1, id2, l1, l2, inputs + more).sim.p2.combat.state == Hit
    decreases |more|
  {
    if more == [] {
      assert inputs + more == inputs;
    } else {
      var n := |more| - 1;
      HitForever(id1, id2, l1, l2, inputs, more[..n]);
      assert (inputs + more)[..|inputs + more| - 1] == inputs + more[..n];
      StaysHitForATick(RunSim(id1, id2, l1, l2, inputs + more[..n]).sim, more[n].0, more[n].1);
    }
  }
}
