/** The fixed-step loop, in exact arithmetic. */
module GameLoop {

  const TICK_DT: real := 1.0 / 60.0
  const MAX_FRAME_SKIP: nat := 5
  const MAX_DT: real := 0.05

  function Clamp(dt: real): real {
    if dt > MAX_DT then MAX_DT else dt
  }

  /** Accumulated time, executed ticks and the frame counter. */
  datatype Loop = Loop(accumulator: real, currentFrame: int)

  /** What a host frame of elapsed time dt amounts to: as many whole ticks as fit. */
  function HostFrame(l: Loop, dt: real): (r: (Loop, int)) {
    var a := l.accumulator + Clamp(dt);
    var n := (a * 60.0).Floor;
    (Loop(a - n as real / 60.0, l.currentFrame + n), n)
  }

  class GameLoop {
    var accumulator: real
    var tickDt: real
    var lastCounter: nat
    var perfFreq: nat
    var currentFrame: int

    /** Less than one tick is left over between host frames. */
    predicate Valid()
      reads this
    {
      tickDt == TICK_DT && perfFreq > 0 && 0.0 <= accumulator < TICK_DT
    }

    function Val(): Loop
      reads this
    {
      Loop(accumulator, currentFrame)
    }

    constructor (counter: nat, freq: nat)
      requires freq > 0
      ensures Valid() && Val() == Loop(0.0, 0) && lastCounter == counter && perfFreq == freq
    {
      accumulator, tickDt := 0.0, TICK_DT;
      lastCounter, perfFreq, currentFrame := counter, freq, 0;
    }

    method BeginFrame(now: nat) returns (dt: real)
      requires perfFreq > 0 && now >= lastCounter
      modifies this`lastCounter, this`accumulator
      ensures dt == Clamp((now - old(lastCounter)) as real / perfFreq as real)
      ensures accumulator == old(accumulator) + dt && lastCounter == now
    {
      dt := (now - lastCounter) as real / perfFreq as real;
      lastCounter := now;
      if dt > MAX_DT { dt := MAX_DT; }
      accumulator := accumulator + dt;
    }

    method ShouldTick() returns (fire: bool)
      modifies this`accumulator, this`currentFrame
      ensures fire == (old(accumulator) >= tickDt)
      ensures accumulator == old(accumulator) - (if fire then tickDt else 0.0)
      ensures currentFrame == old(currentFrame) + (if fire then 1 else 0)
    {
      if accumulator >= tickDt {
        accumulator := accumulator - tickDt;
        currentFrame := currentFrame + 1;
        return true;
      }
      fire := false;
    }

    /** The tick loop of one host frame. The frame-skip cap is looked at after the tick has been
        taken, so it would lose a frame if it ever bound; it does not. */
    method RunHostFrame(now: nat) returns (ticks: nat)
      requires Valid() && now >= lastCounter
      modifies this
      ensures Valid() && perfFreq == old(perfFreq) && lastCounter == now
      ensures (Val(), ticks as int) == HostFrame(old(Val()), (now - old(lastCounter)) as real / perfFreq as real)
      ensures ticks <= 3
    {
      var dt := BeginFrame(now);
      ghost var a := accumulator;
      ticks := 0;
      var fire := ShouldTick();
      while fire && ticks < MAX_FRAME_SKIP
        invariant tickDt == TICK_DT && perfFreq == old(perfFreq) && lastCounter == now
        invariant ticks <= 3
        invariant 0.0 <= accumulator == a - (ticks + (if fire then 1 else 0)) as real / 60.0
        invariant currentFrame == old(currentFrame) + ticks + (if fire then 1 else 0)
        invariant !fire ==> accumulator < TICK_DT
        decreases MAX_FRAME_SKIP - ticks, fire
      {
        ticks := ticks + 1;
        fire := ShouldTick();
      }
      FloorIs(a, ticks);
    }

    /** How far between two ticks the host frame is drawn. */
    function RenderAlpha(): (alpha: real)
      requires tickDt != 0.0
      reads this
      ensures Valid() ==> 0.0 <= alpha < 1.0
    {
      AlphaBelowOne(accumulator);
      accumulator / tickDt
    }
  }

  lemma FloorIs(a: real, n: nat)
    requires 0.0 <= a - n as real / 60.0 < TICK_DT
    ensures (a * 60.0).Floor == n
  {
    assert n as real <= a * 60.0 < n as real + 1.0;
  }

  // ----- Whole runs -----

  function RunFrames(dts: seq<real>): Loop {
    if dts == [] then Loop(0.0, 0) else HostFrame(RunFrames(dts[..|dts| - 1]), dts[|dts| - 1]).0
  }

  function Ticks(dts: seq<real>): int {
    if dts == [] then 0
    else Ticks(dts[..|dts| - 1]) + HostFrame(RunFrames(dts[..|dts| - 1]), dts[|dts| - 1]).1
  }

  function ClampedTime(dts: seq<real>): real {
    if dts == [] then 0.0 else ClampedTime(dts[..|dts| - 1]) + Clamp(dts[|dts| - 1])
  }

  /** The time a loop has lived through: what is accumulated and what its ticks have used. */
  function Lived(l: Loop): real {
    l.accumulator + l.currentFrame as real / 60.0
  }

  /** One host frame: at most three ticks, less than a tick left over, and no time lost. */
  lemma HostFrameKeeps(l: Loop, dt: real)
    requires 0.0 <= l.accumulator < TICK_DT && dt >= 0.0
    ensures var (l', n) := HostFrame(l, dt);
            && 0 <= n <= 3 && 0.0 <= l'.accumulator < TICK_DT
            && Lived(l') == Lived(l) + Clamp(dt)
  {
    var a := l.accumulator + Clamp(dt);
    var n := (a * 60.0).Floor;
    assert 0.0 <= a * 60.0 < 4.0;
    assert n as real <= a * 60.0 < n as real + 1.0;
    assert (l.currentFrame + n) as real / 60.0 == l.currentFrame as real / 60.0 + n as real / 60.0;
  }

  /** Over any run: the ticks executed are the frame counter, time in the accumulator plus ticks is
      the total clamped time, and the blend factor of the renderer stays below one. */
  lemma {:induction false} RunAccounts(dts: seq<real>)
    requires forall i :: 0 <= i < |dts| ==> dts[i] >= 0.0
    ensures var l := RunFrames(dts);
            && Ticks(dts) == l.currentFrame
            && Lived(l) == ClampedTime(dts)
            && 0.0 <= l.accumulator / TICK_DT < 1.0
    decreases |dts|
  {
    if dts != [] {
      var k := |dts| - 1;
      RunAccounts(dts[..k]);
      var l := RunFrames(dts[..k]);
      AlphaBelowOne(l.accumulator);
      HostFrameKeeps(l, dts[k]);
      AlphaBelowOne(HostFrame(l, dts[k]).0.accumulator);
    }
  }

  lemma AlphaBelowOne(a: real)
    ensures 0.0 <= a < TICK_DT <==> 0.0 <= a / TICK_DT < 1.0
  {
    assert a / TICK_DT == a * 60.0;
  }
}
