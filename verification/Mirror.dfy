/** Left and right: which parts of the simulation treat the two directions alike. The stage is
    symmetric about x = 640. */
module Mirror {
  import opened Bytes
  import opened Fighters
  import opened Simulation

  function MirrorX(x: real): real {
    STAGE_LEFT + STAGE_RIGHT - x
  }

  function MirrorBody(b: Body): Body {
    b.(x := MirrorX(b.x), vx := -b.vx, facing := -b.facing)
  }

  function MirrorFighter(f: FighterVal): FighterVal {
    f.(body := MirrorBody(f.body))
  }

  predicate FacesASide(f: FighterVal) {
    f.body.facing == 1 || f.body.facing == -1
  }

  /** m presses what input presses, left and right exchanged. */
  predicate Swaps(input: uint16, m: uint16) {
    && Up(m) == Up(input) && Left(m) == Right(input) && Right(m) == Left(input)
    && LightPunch(m) == LightPunch(input) && HeavyPunch(m) == HeavyPunch(input)
  }

  /** g is f with left and right exchanged, in its position and in what was last pressed. */
  predicate Mirrored(f: FighterVal, g: FighterVal) {
    g == MirrorFighter(f).(prevInput := g.prevInput) && Swaps(f.prevInput, g.prevInput)
  }

  // ----- Alike: movement -----

  lemma PhysicsMirrors(f: FighterVal, g: FighterVal)
    requires Mirrored(f, g)
    ensures Mirrored(CancelOnLanding(Physics(f)), CancelOnLanding(Physics(g)))
  {
  }

  lemma FaceMirrors(f: FighterVal, g: FighterVal, opponentX: real)
    requires Mirrored(f, g) && (OnGround(f.combat.state) ==> opponentX != f.body.x)
    ensures Mirrored(Face(f, opponentX), Face(g, MirrorX(opponentX)))
  {
  }

  lemma GroundMoveMirrors(f: FighterVal, g: FighterVal, input: uint16, m: uint16)
    requires FacesASide(f) && Mirrored(f, g) && Swaps(input, m)
    ensures Mirrored(GroundMove(f, input), GroundMove(g, m))
  {
  }

  lemma JumpPunchMirrors(f: FighterVal, g: FighterVal, input: uint16, m: uint16)
    requires Mirrored(f, g) && Swaps(input, m)
    ensures Mirrored(JumpPunch(f, input), JumpPunch(g, m))
  {
  }

  lemma ActMirrors(f: FighterVal, g: FighterVal, input: uint16, m: uint16)
    requires |f.boxes.hitboxes| == 4 && FacesASide(f) && Mirrored(f, g) && Swaps(input, m)
    ensures Mirrored(Act(f, input), Act(g, m))
  {
    GroundMoveMirrors(f, g, input, m);
    JumpPunchMirrors(GroundMove(f, input), GroundMove(g, m), input, m);
  }

  /** A tick commutes with exchanging left and right in the fighter, the buttons and the opponent's
      position, unless the fighter stands exactly where its opponent does. */
  lemma TickMirrors(f: FighterVal, g: FighterVal, input: uint16, m: uint16, opponentX: real)
    requires |f.boxes.hitboxes| == 4 && FacesASide(f) && Mirrored(f, g) && Swaps(input, m)
    requires OnGround(f.combat.state) ==> opponentX != f.body.x
    ensures Mirrored(Tick(f, input, opponentX), Tick(g, m, MirrorX(opponentX)))
  {
    if f.combat.hitstun <= 0 && f.combat.blockstun <= 0 {
      FaceMirrors(f, g, opponentX);
      var f1, g1 := Face(f, opponentX), Face(g, MirrorX(opponentX));
      PhysicsMirrors(f1, g1);
      ActMirrors(CancelOnLanding(Physics(f1)), CancelOnLanding(Physics(g1)), input, m);
    }
  }

  /** So does pushing two fighters apart. */
  lemma PushMirrors(x1: real, x2: real)
    ensures PushApart(MirrorX(x1), MirrorX(x2)) == (MirrorX(PushApart(x1, x2).0), MirrorX(PushApart(x1, x2).1))
  {
  }

  // ----- Not alike: hits -----

  /** How far ahead of the attacker, in the direction it faces, the defender stands. */
  function Ahead(a: FighterVal, d: FighterVal): real {
    (d.body.x - a.body.x) * a.body.facing as real
  }

  predicate HeightsMeet(a: FighterVal, d: FighterVal, i: nat)
    requires i < |a.boxes.hitboxes|
  {
    var hb, hurt := a.boxes.hitboxes[i], d.boxes.hurtbox;
    a.body.y + hb.y < d.body.y + hurt.y + hurt.h && a.body.y + hb.y + hb.h > d.body.y + hurt.y
  }

  /** g: how far beyond the near edge the defender stands. */
  predicate InReach(g: real, w: real, facing: int) {
    if facing == 1 then -30.0 < g < w + 30.0 else -w - 30.0 < g < 30.0
  }

  /** The reach of a hitbox against a standing body, 30 to each side. Facing right it is from the
      box's near edge to its far edge; facing left only the near edge is flipped, so the box lies
      behind it. */
  lemma ReachExactly(a: FighterVal, d: FighterVal, i: nat)
    requires i < |a.boxes.hitboxes| && FacesASide(a) && d.boxes.hurtbox == NO_BOXES.hurtbox
    ensures var hb := a.boxes.hitboxes[i];
            BoxHits(a, d, i) <==> (
              && HeightsMeet(a, d, i)
              && InReach(Ahead(a, d) - hb.x, hb.w, a.body.facing))
  {
  }

  /** The defender is at least a body radius, and less than that plus the box's width, away from
      the near edge of the box. */
  predicate BesideNearEdge(a: FighterVal, d: FighterVal, hb: Rect) {
    30.0 <= Abs(Ahead(a, d) - hb.x) < 30.0 + hb.w
  }

  lemma TwoReaches(g: real, w: real)
    requires w > 0.0
    ensures (-30.0 < g < w + 30.0 <==> -w - 30.0 < g < 30.0) <==> !(30.0 <= Abs(g) < 30.0 + w)
  {
  }

  /** Exchanging left and right keeps whether a box hits, except exactly for a defender at the
      right height beside the near edge. */
  lemma HitMirrorsExactly(a: FighterVal, d: FighterVal, i: nat)
    requires i < |a.boxes.hitboxes| && FacesASide(a) && d.boxes.hurtbox == NO_BOXES.hurtbox
    requires a.boxes.hitboxes[i].w > 0.0
    ensures BoxHits(MirrorFighter(a), MirrorFighter(d), i) == BoxHits(a, d, i)
       <==> !(HeightsMeet(a, d, i) && BesideNearEdge(a, d, a.boxes.hitboxes[i]))
  {
    var a', d', hb := MirrorFighter(a), MirrorFighter(d), a.boxes.hitboxes[i];
    assert Ahead(a', d') == Ahead(a, d);
    var g := Ahead(a, d) - hb.x;
    assert BoxHits(a, d, i) <==> HeightsMeet(a, d, i) && InReach(g, hb.w, a.body.facing) by {
      ReachExactly(a, d, i);
    }
    assert BoxHits(a', d', i) <==> HeightsMeet(a, d, i) && InReach(g, hb.w, -a.body.facing) by {
      ReachExactly(a', d', i);
    }
    TwoReaches(g, hb.w);
  }

  /** For example the light air punch, 5 to 65 ahead by its comment, at an opponent from 35 up to 95
      ahead: it hits facing right and misses facing left. */
  lemma LightPunchOnlyToTheRight(a: FighterVal, d: FighterVal)
    requires |a.boxes.hitboxes| == 4 && a.boxes.hitboxes[0] == MOVES[3].hitbox && a.boxes.count == 1
    requires d.boxes.hurtbox == NO_BOXES.hurtbox && FacesASide(a)
    requires HeightsMeet(a, d, 0) && 35.0 <= Ahead(a, d) < 95.0
    ensures Hits(a, d) <==> a.body.facing == 1
  {
    ReachExactly(a, d, 0);
    assert Hits(a, d) <==> BoxHits(a, d, 0);
  }

  /** A hit throws the defender to the left whichever side it comes from: taking a hit commutes
      with exchanging left and right exactly when the move has no horizontal knockback. */
  lemma KnockbackMirrorsExactly(f: FighterVal, hp: HitProperties, blocked: bool)
    ensures ApplyHit(MirrorFighter(f), hp, blocked) == MirrorFighter(ApplyHit(f, hp, blocked)) <==> hp.knockbackX == 0.0
  {
    var l, r := ApplyHit(MirrorFighter(f), hp, blocked), MirrorFighter(ApplyHit(f, hp, blocked));
    assert l == r.(body := r.body.(vx := l.body.vx));
    assert l.body.vx == r.body.vx <==> hp.knockbackX == 0.0;
  }
}
