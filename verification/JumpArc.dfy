/** The height of a jump in closed form. */
module JumpArc {
  import opened Bytes
  import opened Fighters

  /** Height after k ticks of motion for launch speed v. */
  function Height(v: int, k: nat): real {
    GROUND_Y - (v * k) as real / 60.0 + (k * (k - 1)) as real / 4.0
  }

  /** The first tick at or below the ground: the least k with k - 1 >= v / 15. */
  function LandingTick(v: nat): nat {
    (v + 14) / 15 + 1
  }

  /** Launch speed of a fighter. */
  function JumpSpeed(id: int): nat {
    if id == 1 then 920 else 900
  }

  /** Between two ticks of its own a jumping fighter can be pushed sideways and lose its hitbox. */
  datatype Nudge = Nudge(x: real, count: int)

  function Nudged(f: FighterVal, n: Nudge): FighterVal {
    f.(body := f.body.(x := n.x), boxes := f.boxes.(count := n.count))
  }

  /** The fighter k ticks after f, with inputs, opponents and nudges of each tick. */
  function Flight(f: FighterVal, inputs: nat -> uint16, opponents: nat -> real, nudges: nat -> Nudge,
      k: nat): (r: FighterVal)
    requires |f.boxes.hitboxes| == 4
    ensures |r.boxes.hitboxes| == 4
  {
    if k == 0 then f
    else Tick(Nudged(Flight(f, inputs, opponents, nudges, k - 1), nudges(k - 1)), inputs(k - 1), opponents(k - 1))
  }

  /** Jumping or in an air attack, and neither stunned. */
  predicate Floating(f: FighterVal) {
    && |f.boxes.hitboxes| == 4 && f.combat.hitstun == 0 && f.combat.blockstun == 0
    && (Jumping(f.combat.state) || (f.combat.state == Attack && f.combat.moveId >= 3))
  }

  /** On the way up or down: the height and speed of tick k, jumping or in an air attack. */
  predicate InFlight(f: FighterVal, v: nat, k: nat) {
    Floating(f) && f.body.y == Height(v, k) && f.body.vy == (30 * k - 30 - v) as real
  }

  /** Just launched from the ground. */
  predicate Launched(f: FighterVal, v: nat) {
    Floating(f) && Jumping(f.combat.state) && f.body.y == GROUND_Y && f.body.vy == -(v as real)
  }

  /** Pressing up on the ground launches with the fighter's speed. */
  lemma UpLaunches(f: FighterVal, input: uint16, x: real)
    requires |f.boxes.hitboxes| == 4 && OnGround(f.combat.state) && f.body.y == GROUND_Y && f.body.vy >= 0.0
    requires f.combat.hitstun == 0 && f.combat.blockstun == 0 && Up(input)
    ensures Launched(Tick(f, input, x), JumpSpeed(f.id)) && Tick(f, input, x).id == f.id
  {
  }

  lemma HeightStep(v: nat, k: nat)
    ensures Height(v, k + 1) == Height(v, k) + (30 * k - v) as real / 60.0
  {
    assert (k + 1) * k == k * (k - 1) + 2 * k;
    assert v * (k + 1) == v * k + v;
  }

  /** The height as a quotient with denominator 60. */
  lemma HeightSign(v: nat, k: nat)
    ensures Height(v, k) == GROUND_Y + (k * (15 * (k - 1) - v)) as real / 60.0
  {
    assert k * (15 * (k - 1) - v) == 15 * (k * (k - 1)) - v * k;
  }

  /** For the speeds of the fighter table the fighter is more than one pixel above the ground on
      every tick before the landing tick, and not above it on the landing tick. */
  lemma HeightBounds(id: int, k: nat)
    requires 1 <= k
    ensures k < LandingTick(JumpSpeed(id)) ==> Height(JumpSpeed(id), k) < GROUND_Y - 1.0
    ensures k == LandingTick(JumpSpeed(id)) ==> Height(JumpSpeed(id), k) >= GROUND_Y
  {
    var v := JumpSpeed(id);
    HeightSign(v, k);
    var c := v - 15 * (k - 1);
    if k < LandingTick(v) {
      if k >= 13 {
        Product(k, c, 13, 5);
      } else {
        Product(k, c, 1, 700);
      }
      assert k * (15 * (k - 1) - v) == -(k * c);
    }
  }

  lemma Product(a: nat, b: nat, x: nat, y: nat)
    requires a >= x && b >= y
    ensures a * b >= x * y
  {
    assert a * b >= x * b;
    assert x * b >= x * y;
  }

  /** The fighter k ticks after a launch: launched, in flight over the ground, or down again. */
  predicate OnArc(f: FighterVal, id: int, k: nat) {
    && f.id == id && |f.boxes.hitboxes| == 4
    && (k == 0 ==> Launched(f, JumpSpeed(id)))
    && (1 <= k < LandingTick(JumpSpeed(id)) ==> InFlight(f, JumpSpeed(id), k) && f.body.y < GROUND_Y - 1.0)
    && (k == LandingTick(JumpSpeed(id)) ==> f.body.y == GROUND_Y)
  }

  /** Speed and height after a tick of motion, before the ground is looked at. */
  function NextSpeed(b: Body): real {
    if b.y < GROUND_Y then b.vy + GRAVITY_PER_TICK else b.vy
  }

  function NextHeight(b: Body): real {
    b.y + NextSpeed(b) / TICKS_PER_SECOND
  }

  /** A tick of a floating fighter is free motion, and ends on the ground if that is reached. */
  lemma FloatingTick(f: FighterVal, input: uint16, x: real)
    requires Floating(f)
    ensures var g := Tick(f, input, x);
            && g.id == f.id && |g.boxes.hitboxes| == 4
            && (NextHeight(f.body) < GROUND_Y - 1.0 ==>
                  Floating(g) && g.body.y == NextHeight(f.body) && g.body.vy == NextSpeed(f.body))
            && (NextHeight(f.body) >= GROUND_Y ==> g.body.y == GROUND_Y)
  {
    var p := Physics(Face(f, x));
    assert p.body.y == if NextHeight(f.body) < GROUND_Y then NextHeight(f.body) else GROUND_Y;
  }

  /** Free motion follows the closed form. */
  lemma ArcStep(f: FighterVal, id: int, k: nat)
    requires k < LandingTick(JumpSpeed(id)) && OnArc(f, id, k)
    ensures NextHeight(f.body) == Height(JumpSpeed(id), k + 1)
    ensures NextSpeed(f.body) == (30 * k - JumpSpeed(id)) as real
    ensures k + 1 < LandingTick(JumpSpeed(id)) ==> NextHeight(f.body) < GROUND_Y - 1.0
    ensures k + 1 == LandingTick(JumpSpeed(id)) ==> NextHeight(f.body) >= GROUND_Y
  {
    HeightStep(JumpSpeed(id), k);
    HeightBounds(id, k + 1);
  }

  lemma FlightStep(f: FighterVal, n: Nudge, input: uint16, x: real, g: FighterVal, id: int, k: nat, next: nat)
    requires k < LandingTick(JumpSpeed(id)) && OnArc(f, id, k) && g == Tick(Nudged(f, n), input, x) && next == k + 1
    ensures OnArc(g, id, next)
  {
    ArcStep(f, id, k);
    FloatingTick(Nudged(f, n), input, x);
  }

  lemma FlightLast(f: FighterVal, inputs: nat -> uint16, opponents: nat -> real, nudges: nat -> Nudge, k: nat)
    requires |f.boxes.hitboxes| == 4 && k > 0
    ensures Flight(f, inputs, opponents, nudges, k)
         == Tick(Nudged(Flight(f, inputs, opponents, nudges, k - 1), nudges(k - 1)), inputs(k - 1), opponents(k - 1))
  {
  }

  lemma LastFlightStep(f: FighterVal, inputs: nat -> uint16, opponents: nat -> real, nudges: nat -> Nudge, k: nat,
      before: FighterVal, after: FighterVal)
    requires |f.boxes.hitboxes| == 4 && 0 < k <= LandingTick(JumpSpeed(f.id)) && OnArc(before, f.id, k - 1)
    requires before == Flight(f, inputs, opponents, nudges, k - 1) && after == Flight(f, inputs, opponents, nudges, k)
    ensures OnArc(after, f.id, k)
  {
    FlightLast(f, inputs, opponents, nudges, k);
    FlightStep(before, nudges(k - 1), inputs(k - 1), opponents(k - 1), after, f.id, k - 1, k);
  }

  /** A jump that is not hit follows the parabola tick by tick, air attacks or not, and touches the
      ground again exactly at the landing tick: 61 for speed 900, 63 for speed 920. */
  lemma {:induction false} JumpFollowsParabola(f: FighterVal, inputs: nat -> uint16, opponents: nat -> real,
      nudges: nat -> Nudge, k: nat)
    requires |f.boxes.hitboxes| == 4 && Launched(f, JumpSpeed(f.id)) && k <= LandingTick(JumpSpeed(f.id))
    ensures OnArc(Flight(f, inputs, opponents, nudges, k), f.id, k)
    decreases k
  {
    if k > 0 {
      JumpFollowsParabola(f, inputs, opponents, nudges, k - 1);
      LastFlightStep(f, inputs, opponents, nudges, k, Flight(f, inputs, opponents, nudges, k - 1),
        Flight(f, inputs, opponents, nudges, k));
    }
  }

  /** The landing ticks of the two fighters, and what "least" means for any speed. */
  lemma LandingTicks(v: nat, k: nat)
    ensures LandingTick(900) == 61 && LandingTick(920) == 63
    ensures k >= 1 ==> (k >= LandingTick(v) <==> 15 * (k - 1) >= v)
    ensures k >= 1 && v > 0 ==> (Height(v, k) >= GROUND_Y <==> k >= LandingTick(v))
  {
    HeightSign(v, k);
    if k >= 1 {
      var c := 15 * (k - 1) - v;
      assert c >= 0 ==> k * c >= 0;
      assert c < 0 ==> k * c < 0;
    }
  }
}
