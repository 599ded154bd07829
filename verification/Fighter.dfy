/** One fighter: physics, the state machine of a tick, and taking a hit. Positions and velocities
    are exact reals; the fields that nothing here reads or writes (super meter, animation) are
    left out. */
module Fighters {
  import opened Bytes

  const GRAVITY_PER_TICK: real := 30.0       // 1800 px/s^2 at 60 ticks
  const TICKS_PER_SECOND: real := 60.0
  const GROUND_Y: real := 540.0
  const STAGE_LEFT: real := 50.0
  const STAGE_RIGHT: real := 1230.0
  const MAX_HEALTH: int := 1000
  const JUMP_MOVE_FIRST: nat := 3

  datatype Rect = Rect(x: real, y: real, w: real, h: real)

  datatype HitProperties = HitProperties(damage: int, chipDamage: int, hitstun: int, blockstun: int,
      knockbackX: real, knockbackY: real)

  datatype State =
    | Idle | WalkFwd | WalkBack | Crouch
    | JumpNeutral | JumpFwd | JumpBack
    | Attack | Hit | Block | Knockdown | Wakeup

  // ----- Fighter data -----

  datatype MoveData = MoveData(totalFrames: nat, startup: nat, active: nat, hit: HitProperties, hitbox: Rect)

  datatype FighterData = FighterData(jumpVy: real, jumpVx: real, moves: seq<MoveData>)

  /** stand_LP, stand_HP, qcf_LP, then the two air attacks jump_LP and jump_HP. */
  const MOVES: seq<MoveData> := [
    MoveData(16, 4, 3, HitProperties(40, 8, 2, 12, 0.5, 0.0), Rect(10.0, -80.0, 50.0, 20.0)),
    MoveData(28, 8, 4, HitProperties(80, 8, 4, 18, 3.5, 0.0), Rect(20.0, -100.0, 60.0, 30.0)),
    MoveData(35, 12, 8, HitProperties(100, 10, 6, 20, 4.0, -2.0), Rect(30.0, -90.0, 80.0, 30.0)),
    MoveData(22, 6, 6, HitProperties(50, 8, 3, 12, 1.5, 0.0), Rect(5.0, -80.0, 60.0, 50.0)),
    MoveData(32, 9, 5, HitProperties(90, 10, 4, 18, 3.5, 0.0), Rect(10.0, -90.0, 65.0, 60.0))]

  function GetData(id: int): Option<FighterData> {
    if id == 0 then Some(FighterData(-900.0, 180.0, MOVES))
    else if id == 1 then Some(FighterData(-920.0, 200.0, MOVES))
    else None
  }

  // ----- The fighter as a value -----

  datatype Body = Body(x: real, y: real, vx: real, vy: real, facing: int)

  datatype Combat = Combat(state: State, stateFrame: int, hitstun: int, blockstun: int, combo: int, moveId: int)

  datatype Boxes = Boxes(hitboxes: seq<Rect>, count: int, hurtbox: Rect, props: HitProperties)

  datatype FighterVal = FighterVal(id: int, slot: int, body: Body, combat: Combat, health: int, maxHealth: int,
                                   boxes: Boxes, prevInput: uint16, loadout: int, damagePct: int)

  const NO_RECT := Rect(0.0, 0.0, 0.0, 0.0)
  const NO_BOXES := Boxes([NO_RECT, NO_RECT, NO_RECT, NO_RECT], 0, Rect(-30.0, -160.0, 60.0, 160.0),
                          HitProperties(0, 0, 0, 0, 0.0, 0.0))

  function StartBody(slot: int): Body {
    Body(if slot == 0 then 300.0 else 980.0, GROUND_Y, 0.0, 0.0, if slot == 0 then 1 else -1)
  }

  function Init(id: int, slot: int): FighterVal {
    FighterVal(id, slot, StartBody(slot), Combat(Idle, 0, 0, 0, 0, 0), MAX_HEALTH, MAX_HEALTH, NO_BOXES, 0, 0, 0)
  }

  predicate OnGround(s: State) {
    s == Idle || s == WalkFwd || s == WalkBack
  }

  predicate Jumping(s: State) {
    s == JumpNeutral || s == JumpFwd || s == JumpBack
  }

  predicate Airborne(b: Body) {
    b.y < GROUND_Y - 1.0
  }

  // ----- Physics -----

  function ApplyGravity(b: Body): Body {
    if b.y < GROUND_Y then b.(vy := b.vy + GRAVITY_PER_TICK) else b
  }

  /** One tick of motion, before the ground is looked at. */
  function Fly(b: Body): Body {
    b.(x := b.x + b.vx / TICKS_PER_SECOND, y := b.y + b.vy / TICKS_PER_SECOND)
  }

  /** Motion and the ground: a jump ends there, any other state only stops falling. */
  function Move(b: Body, c: Combat): (Body, Combat) {
    var moved := Fly(b);
    if moved.y < GROUND_Y then (moved, c)
    else if Jumping(c.state) then (moved.(y := GROUND_Y, vy := 0.0, vx := 0.0), c.(state := Idle, stateFrame := 0))
    else (moved.(y := GROUND_Y, vy := 0.0), c)
  }

  function ClampX(x: real): real {
    if x < STAGE_LEFT then STAGE_LEFT else if x > STAGE_RIGHT then STAGE_RIGHT else x
  }

  function Physics(f: FighterVal): FighterVal {
    var (b, c) := Move(ApplyGravity(f.body), f.combat);
    f.(body := b.(x := ClampX(b.x)), combat := c)
  }

  function Abs(a: real): real {
    if a < 0.0 then -a else a
  }

  /** The positions of two fighters after they have been pushed apart. */
  function PushApart(x1: real, x2: real): (real, real) {
    var dx := x2 - x1;
    var dist := Abs(dx);
    if dist < 60.0 && dist > 0.1 then
      var push := (60.0 - dist) * 0.5;
      if dx > 0.0 then (ClampX(x1 - push), ClampX(x2 + push)) else (ClampX(x1 + push), ClampX(x2 - push))
    else (x1, x2)
  }

  // ----- A tick -----

  predicate Up(input: uint16) { input % 2 == 1 }
  predicate Left(input: uint16) { input / 4 % 2 == 1 }
  predicate Right(input: uint16) { input / 8 % 2 == 1 }
  predicate LightPunch(input: uint16) { input / 16 % 2 == 1 }
  predicate HeavyPunch(input: uint16) { input / 32 % 2 == 1 }

  /** Facing follows the opponent on the ground only. */
  function Face(f: FighterVal, opponentX: real): FighterVal {
    if OnGround(f.combat.state) then f.(body := f.body.(facing := if opponentX - f.body.x >= 0.0 then 1 else -1)) else f
  }

  /** Landing during an air attack cancels it. */
  function CancelOnLanding(f: FighterVal): FighterVal {
    if !Airborne(f.body) && f.combat.state == Attack && f.combat.moveId >= JUMP_MOVE_FIRST then
      f.(combat := f.combat.(state := Idle, stateFrame := 0), boxes := f.boxes.(count := 0), body := f.body.(vx := 0.0))
    else f
  }

  /** The move an attacking fighter is performing. */
  function CurrentMove(id: int, c: Combat): Option<MoveData> {
    match GetData(id)
    case Some(fd) => if 0 <= c.moveId < |fd.moves| then Some(fd.moves[c.moveId]) else None
    case None => None
  }

  /** One frame of an attack: the hitbox is live during the active window, and after the last frame
      the fighter goes back to jumping or standing. */
  function AttackFrame(f: FighterVal): FighterVal
    requires |f.boxes.hitboxes| == 4
  {
    match CurrentMove(f.id, f.combat)
    case None => f
    case Some(mv) =>
      var k := f.combat.stateFrame;
      if k >= mv.totalFrames then
        f.(combat := f.combat.(state := if Airborne(f.body) then JumpNeutral else Idle, stateFrame := 0),
           boxes := AttackBoxes(f.boxes, mv, k).(count := 0))
      else f.(boxes := AttackBoxes(f.boxes, mv, k))
  }

  function AttackBoxes(b: Boxes, mv: MoveData, frame: int): Boxes
    requires |b.hitboxes| == 4
  {
    if mv.startup <= frame < mv.startup + mv.active then Boxes(b.hitboxes[0 := mv.hitbox], 1, b.hurtbox, mv.hit)
    else b.(count := 0)
  }

  /** Walking and the jump launch. */
  function GroundMove(f: FighterVal, input: uint16): FighterVal {
    if !OnGround(f.combat.state) then f
    else
      var fwd, back := Right(input), Left(input);
      var moveFwd := if f.body.facing > 0 then fwd else back;
      if Up(input) then
        var (vy, vx) := match GetData(f.id) case Some(fd) => (fd.jumpVy, fd.jumpVx) case None => (-900.0, 180.0);
        var state := if moveFwd then JumpFwd else if fwd || back then JumpBack else JumpNeutral;
        var dir := if moveFwd then f.body.facing else if fwd || back then -f.body.facing else 0;
        f.(body := f.body.(vy := vy, vx := vx * dir as real), combat := f.combat.(state := state, stateFrame := 0))
      else
        var state := if moveFwd then WalkFwd else if fwd || back then WalkBack else Idle;
        var speed := if moveFwd then 200.0 else if fwd || back then -150.0 else 0.0;
        var vx := speed * f.body.facing as real;
        f.(body := f.body.(vx := vx), combat := f.combat.(state := state))
  }

  /** A punch pressed in the air starts an air attack. */
  function JumpPunch(f: FighterVal, input: uint16): FighterVal {
    var lp := LightPunch(input) && !LightPunch(f.prevInput);
    var hp := HeavyPunch(input) && !HeavyPunch(f.prevInput);
    var mid := if hp then 4 else 3;
    var known := GetData(f.id).Some? && mid < |GetData(f.id).value.moves|;
    if Airborne(f.body) && Jumping(f.combat.state) && (lp || hp) && known then
      f.(combat := f.combat.(state := Attack, moveId := mid, stateFrame := 0), boxes := f.boxes.(count := 0))
    else f
  }

  /** What a fighter does after the physics of a tick. */
  function Act(f: FighterVal, input: uint16): FighterVal
    requires |f.boxes.hitboxes| == 4
  {
    var acted := if f.combat.state == Attack then AttackFrame(f) else JumpPunch(GroundMove(f, input), input);
    acted.(combat := acted.combat.(stateFrame := acted.combat.stateFrame + 1), prevInput := input)
  }

  function Tick(f: FighterVal, input: uint16, opponentX: real): FighterVal
    requires |f.boxes.hitboxes| == 4
  {
    if f.combat.hitstun > 0 then f.(combat := f.combat.(hitstun := f.combat.hitstun - 1))
    else if f.combat.blockstun > 0 then f.(combat := f.combat.(blockstun := f.combat.blockstun - 1))
    else Act(CancelOnLanding(Physics(Face(f, opponentX))), input)
  }

  function NotNegative(h: int): int {
    if h < 0 then 0 else h
  }

  function ApplyHit(f: FighterVal, hp: HitProperties, blocked: bool): FighterVal {
    if blocked then
      f.(health := NotNegative(f.health - hp.chipDamage),
         combat := f.combat.(blockstun := hp.blockstun), body := f.body.(vx := -hp.knockbackX * 0.3))
    else
      f.(health := NotNegative(f.health - hp.damage),
         body := f.body.(vx := -hp.knockbackX, vy := hp.knockbackY),
         combat := f.combat.(hitstun := hp.hitstun, combo := f.combat.combo + 1, state := Hit, stateFrame := 0))
  }

  // ----- The struct, updated in place -----

  class Fighter {
    var id: int
    var slot: int
    var body: Body
    var combat: Combat
    var health: int
    var maxHealth: int
    var boxes: Boxes
    var prevInput: uint16
    var loadout: int
    var damagePct: int

    function Val(): FighterVal
      reads this
    {
      FighterVal(id, slot, body, combat, health, maxHealth, boxes, prevInput, loadout, damagePct)
    }

    constructor (fighterId: int, playerSlot: int)
      ensures Val() == Init(fighterId, playerSlot)
    {
      id, slot, body := fighterId, playerSlot, StartBody(playerSlot);
      combat, health, maxHealth := Combat(Idle, 0, 0, 0, 0, 0), MAX_HEALTH, MAX_HEALTH;
      boxes, prevInput, loadout, damagePct := NO_BOXES, 0, 0, 0;
    }

    /** Overwrites every field, as restoring a snapshot does. */
    method Assign(v: FighterVal)
      modifies this
      ensures Val() == v
    {
      id, slot, body, combat, health := v.id, v.slot, v.body, v.combat, v.health;
      maxHealth, boxes, prevInput, loadout, damagePct := v.maxHealth, v.boxes, v.prevInput, v.loadout, v.damagePct;
    }

    method GravityStep()
      modifies this`body
      ensures body == ApplyGravity(old(body))
    {
      if body.y < GROUND_Y {
        body := body.(vy := body.vy + GRAVITY_PER_TICK);
      }
    }

    method MoveStep()
      modifies this`body, this`combat
      ensures (body, combat) == Move(old(body), old(combat))
    {
      body := body.(x := body.x + body.vx / TICKS_PER_SECOND);
      body := body.(y := body.y + body.vy / TICKS_PER_SECOND);
      if body.y >= GROUND_Y {
        body := body.(y := GROUND_Y);
        body := body.(vy := 0.0);
        if Jumping(combat.state) {
          combat := combat.(state := Idle);
          combat := combat.(stateFrame := 0);
          body := body.(vx := 0.0);
        }
      }
    }

    method ClampToStage()
      modifies this`body
      ensures body == old(body).(x := ClampX(old(body).x))
    {
      if body.x < STAGE_LEFT { body := body.(x := STAGE_LEFT); }
      if body.x > STAGE_RIGHT { body := body.(x := STAGE_RIGHT); }
    }

    method AttackStep()
      requires |boxes.hitboxes| == 4
      modifies this`combat, this`boxes
      ensures Val() == AttackFrame(old(Val()))
    {
      var airborne := body.y < GROUND_Y - 1.0;
      var move := CurrentMove(id, combat);
      if move.Some? {
        var mv := move.value;
        if mv.startup <= combat.stateFrame < mv.startup + mv.active {
          boxes := boxes.(hitboxes := boxes.hitboxes[0 := mv.hitbox]);
          boxes := boxes.(count := 1);
          boxes := boxes.(props := mv.hit);
        } else {
          boxes := boxes.(count := 0);
        }
        if combat.stateFrame >= mv.totalFrames {
          combat := combat.(state := if airborne then JumpNeutral else Idle);
          combat := combat.(stateFrame := 0);
          boxes := boxes.(count := 0);
        }
      }
    }

    method GroundStep(input: uint16)
      modifies this`body, this`combat
      ensures Val() == GroundMove(old(Val()), input)
    {
      if !OnGround(combat.state) { return; }
      var fwd, back := Right(input), Left(input);
      var moveFwd := if body.facing > 0 then fwd else back;
      if Up(input) {
        var fd := GetData(id);
        var jvy := if fd.Some? then fd.value.jumpVy else -900.0;
        var jvx := if fd.Some? then fd.value.jumpVx else 180.0;
        body := body.(vy := jvy);
        if moveFwd {
          combat := combat.(state := JumpFwd);
          body := body.(vx := jvx * body.facing as real);
        } else if fwd || back {
          combat := combat.(state := JumpBack);
          body := body.(vx := jvx * (-body.facing) as real);
        } else {
          combat := combat.(state := JumpNeutral);
          body := body.(vx := 0.0);
        }
        combat := combat.(stateFrame := 0);
      } else if moveFwd {
        combat := combat.(state := WalkFwd);
        body := body.(vx := 200.0 * body.facing as real);
      } else if fwd || back {
        combat := combat.(state := WalkBack);
        body := body.(vx := -150.0 * body.facing as real);
      } else {
        combat := combat.(state := Idle);
        body := body.(vx := 0.0);
      }
    }

    method PunchStep(input: uint16)
      modifies this`combat, this`boxes
      ensures Val() == JumpPunch(old(Val()), input)
    {
      if body.y < GROUND_Y - 1.0 && Jumping(combat.state) {
        var lp := LightPunch(input) && !LightPunch(prevInput);
        var hp := HeavyPunch(input) && !HeavyPunch(prevInput);
        if lp || hp {
          var fd := GetData(id);
          if fd.Some? {
            var mid := if hp then 4 else 3;
            if mid < |fd.value.moves| {
              combat := combat.(state := Attack);
              combat := combat.(moveId := mid);
              combat := combat.(stateFrame := 0);
              boxes := boxes.(count := 0);
            }
          }
        }
      }
    }

    method TickOnce(input: uint16, opponent: Fighter)
      requires |boxes.hitboxes| == 4 && opponent != this
      modifies this
      ensures Val() == Tick(old(Val()), input, opponent.body.x)
    {
      if combat.hitstun > 0 {
        combat := combat.(hitstun := combat.hitstun - 1);
        return;
      }
      if combat.blockstun > 0 {
        combat := combat.(blockstun := combat.blockstun - 1);
        return;
      }
      var dx := opponent.body.x - body.x;
      if OnGround(combat.state) {
        body := body.(facing := if dx >= 0.0 then 1 else -1);
      }
      GravityStep();
      MoveStep();
      ClampToStage();
      if !(body.y < GROUND_Y - 1.0) && combat.state == Attack && combat.moveId >= JUMP_MOVE_FIRST {
        combat := combat.(state := Idle, stateFrame := 0);
        boxes := boxes.(count := 0);
        body := body.(vx := 0.0);
      }
      assert Val() == CancelOnLanding(Physics(Face(old(Val()), opponent.body.x)));
      ActStep(input);
    }

    /** The rest of a tick after the physics. */
    method ActStep(input: uint16)
      requires |boxes.hitboxes| == 4
      modifies this
      ensures Val() == Act(old(Val()), input)
    {
      if combat.state == Attack {
        AttackStep();
      } else {
        GroundStep(input);
        PunchStep(input);
      }
      combat := combat.(stateFrame := combat.stateFrame + 1);
      prevInput := input;
    }

    method TakeHit(hp: HitProperties, blocked: bool)
      modifies this`health, this`body, this`combat
      ensures Val() == ApplyHit(old(Val()), hp, blocked)
    {
      if blocked {
        health := health - hp.chipDamage;
        combat := combat.(blockstun := hp.blockstun);
        body := body.(vx := -hp.knockbackX * 0.3);
      } else {
        health := health - hp.damage;
        combat := combat.(hitstun := hp.hitstun);
        body := body.(vx := -hp.knockbackX, vy := hp.knockbackY);
        combat := combat.(combo := combat.combo + 1);
        combat := combat.(state := Hit, stateFrame := 0);
      }
      if health < 0 { health := 0; }
    }
  }
}
