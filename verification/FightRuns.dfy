/** Whole fights: the main loop's ticks with the inputs that arrive between them. Exactly when the
    simulation stays a run of the frames it has simulated, and exactly when with the inputs sent. */
module FightRuns {
  import opened Bytes
  import opened Rollback
  import opened MainLoop

  /** What happens between two fight ticks and at the second: inputs of the other side arrive, for
      whatever frames, then the tick is taken with a local input. */
  datatype Turn = Turn(confirms: seq<(RingFrame, uint16)>, local: uint16)

  function ArriveAll(e: Engine<History>, cs: seq<(RingFrame, uint16)>): (r: Engine<History>)
    requires Shape(e)
    ensures Shape(r) && r.sim == e.sim
    ensures forall k :: 0 <= k < FRAMES ==> r.ring[k].snapshot == e.ring[k].snapshot
    decreases |cs|
  {
    if cs == [] then e else Arrive(ArriveAll(e, cs[..|cs| - 1]), cs[|cs| - 1].0, cs[|cs| - 1].1)
  }

  function PlayTurns(e: Engine<History>, start: nat, turns: seq<Turn>, inSlot0: bool): (r: Engine<History>)
    requires Shape(e)
    ensures Shape(r)
    decreases |turns|
  {
    if turns == [] then e
    else
      var n := |turns| - 1;
      MainTick(BeforeTick(e, start, turns, inSlot0), start + n, turns[n].local, inSlot0, Remember)
  }

  /** The engine as the last tick of the turns finds it. */
  function BeforeTick(e: Engine<History>, start: nat, turns: seq<Turn>, inSlot0: bool): (r: Engine<History>)
    requires Shape(e) && turns != []
    ensures Shape(r)
    decreases |turns|, 0
  {
    ArriveAll(PlayTurns(e, start, turns[..|turns| - 1], inSlot0), turns[|turns| - 1].confirms)
  }

  /** A fight begins: the simulation is in its initial state. The ring is initialized once per process, so
      its snapshots are zeros or what an earlier fight left; the rest of it is anything. */
  ghost predicate Begins(e: Engine<History>) {
    Shape(e) && e.sim == INITIAL && forall k :: 0 <= k < FRAMES ==> e.ring[k].snapshot.foreign
  }

  // ----- Any inputs at any time -----

  /** The last tick finds no divergence, or a harmless one. */
  predicate LastIsClean(e: Engine<History>, start: nat, turns: seq<Turn>, inSlot0: bool)
    requires Shape(e) && turns != []
  {
    StepsCleanly(BeforeTick(e, start, turns, inSlot0), start, start + |turns| - 1)
  }

  /** Every tick of the turns finds no divergence, or a harmless one. */
  predicate TicksCleanly(e: Engine<History>, start: nat, turns: seq<Turn>, inSlot0: bool)
    requires Shape(e)
    decreases |turns|
  {
    turns == [] ||
    (TicksCleanly(e, start, turns[..|turns| - 1], inSlot0) && LastIsClean(e, start, turns, inSlot0))
  }

  /** The prediction for the frame is the input the other side sent for it. */
  predicate Right(told: Engine<History>, frame: nat, sent: nat -> uint16)
    requires Shape(told)
  {
    GetRemote(told, frame) == sent(frame)
  }

  predicate LastIsRight(e: Engine<History>, start: nat, turns: seq<Turn>, inSlot0: bool, sent: nat -> uint16)
    requires Shape(e) && turns != []
  {
    Right(BeforeTick(e, start, turns, inSlot0), start + |turns| - 1, sent)
  }

  /** Every tick of the turns predicts the input the other side sent for its frame. */
  predicate PredictsRight(e: Engine<History>, start: nat, turns: seq<Turn>, inSlot0: bool, sent: nat -> uint16)
    requires Shape(e)
    decreases |turns|
  {
    turns == [] ||
    (PredictsRight(e, start, turns[..|turns| - 1], inSlot0, sent) && LastIsRight(e, start, turns, inSlot0, sent))
  }

  /** The run of the turns' frames with the inputs as they were given on both sides. */
  function Truth(start: nat, turns: seq<Turn>, inSlot0: bool, sent: nat -> uint16): (h: History)
    ensures |h.ticks| == |turns| && !h.foreign
    decreases |turns|
  {
    if turns == [] then INITIAL
    else
      var n := |turns| - 1;
      Ticked(Truth(start, turns[..n], inSlot0, sent), Inputs(turns[n].local, sent(start + n), inSlot0))
  }

  lemma ArrivalsKeepOrder(e: Engine<History>, cs: seq<(RingFrame, uint16)>, start: nat, frame: nat)
    requires InOrder(e, start, frame)
    ensures InOrder(ArriveAll(e, cs), start, frame)
  {
  }

  /** The engine after the turns is one tick after BeforeTick. */
  lemma PlayLast(e: Engine<History>, start: nat, turns: seq<Turn>, inSlot0: bool)
    requires Shape(e) && turns != []
    ensures PlayTurns(e, start, turns, inSlot0) ==
            MainTick(BeforeTick(e, start, turns, inSlot0), start + |turns| - 1, turns[|turns| - 1].local, inSlot0,
              Remember)
  {
  }

  /** Before the last of several turns, when those before it left the past in order. */
  lemma OrderBeforeTick(e: Engine<History>, start: nat, turns: seq<Turn>, inSlot0: bool, frame: nat)
    requires Shape(e) && turns != []
    requires InOrder(PlayTurns(e, start, turns[..|turns| - 1], inSlot0), start, frame)
    ensures InOrder(BeforeTick(e, start, turns, inSlot0), start, frame)
    ensures BeforeTick(e, start, turns, inSlot0).sim == PlayTurns(e, start, turns[..|turns| - 1], inSlot0).sim
  {
    var n := |turns| - 1;
    ArrivalsKeepOrder(PlayTurns(e, start, turns[..n], inSlot0), turns[n].confirms, start, frame);
  }

  /** A clean turn after clean ones leaves the past in order again. */
  lemma OrderAfterTick(e: Engine<History>, start: nat, turns: seq<Turn>, inSlot0: bool, frame: nat, next: nat)
    requires Shape(e) && turns != [] && frame == start + |turns| - 1 && next == frame + 1
    requires InOrder(PlayTurns(e, start, turns[..|turns| - 1], inSlot0), start, frame)
    requires StepsCleanly(BeforeTick(e, start, turns, inSlot0), start, frame)
    ensures InOrder(PlayTurns(e, start, turns, inSlot0), start, next)
  {
    OrderBeforeTick(e, start, turns, inSlot0, frame);
    CleanTick(BeforeTick(e, start, turns, inSlot0), start, frame, turns[|turns| - 1].local, inSlot0);
    PlayLast(e, start, turns, inSlot0);
  }

  lemma {:induction false} CleanSoFar(e: Engine<History>, start: nat, turns: seq<Turn>, inSlot0: bool, next: nat)
    requires Begins(e) && TicksCleanly(e, start, turns, inSlot0) && next == start + |turns|
    ensures InOrder(PlayTurns(e, start, turns, inSlot0), start, next)
    decreases |turns|
  {
    if turns != [] {
      CleanSoFar(e, start, turns[..|turns| - 1], inSlot0, next - 1);
      OrderAfterTick(e, start, turns, inSlot0, next - 1, next);
    }
  }

  lemma OneTurn(told: Engine<History>, e': Engine<History>, start: nat, frame: nat, count: nat, local: uint16,
      inSlot0: bool, clean: bool)
    requires InOrder(told, start, frame) && count == frame + 1 - start && clean == StepsCleanly(told, start, frame)
    requires e' == MainTick(told, frame, local, inSlot0, Remember)
    ensures |e'.sim.ticks| == count && !e'.sim.foreign <==> clean
    ensures clean ==> e'.sim == Ticked(told.sim, Inputs(local, GetRemote(told, frame), inSlot0))
  {
    TickIsCleanExactly(told, start, frame, local, inSlot0);
    CleanRunExactly(e'.sim, start, count);
    if clean {
      CleanTick(told, start, frame, local, inSlot0);
    }
  }

  /** What the last of several turns does when those before it left the past in order. */
  lemma LastTurn(e: Engine<History>, start: nat, turns: seq<Turn>, inSlot0: bool, frame: nat, clean: bool,
      told: Engine<History>, e': Engine<History>)
    requires Shape(e) && turns != [] && frame == start + |turns| - 1
    requires InOrder(PlayTurns(e, start, turns[..|turns| - 1], inSlot0), start, frame)
    requires told == BeforeTick(e, start, turns, inSlot0) && e' == PlayTurns(e, start, turns, inSlot0)
    requires clean == StepsCleanly(told, start, frame)
    ensures |e'.sim.ticks| == |turns| && !e'.sim.foreign <==> clean
    ensures clean ==> e'.sim == Ticked(told.sim, Inputs(turns[|turns| - 1].local, GetRemote(told, frame), inSlot0))
    ensures told.sim == PlayTurns(e, start, turns[..|turns| - 1], inSlot0).sim
  {
    OrderBeforeTick(e, start, turns, inSlot0, frame);
    PlayLast(e, start, turns, inSlot0);
    OneTurn(told, e', start, frame, |turns|, turns[|turns| - 1].local, inSlot0, clean);
  }

  /** The same when they were clean. */
  lemma LastTurnExactly(e: Engine<History>, start: nat, turns: seq<Turn>, inSlot0: bool, frame: nat, clean: bool,
      told: Engine<History>, e': Engine<History>)
    requires Begins(e) && turns != [] && TicksCleanly(e, start, turns[..|turns| - 1], inSlot0)
    requires frame == start + |turns| - 1 && clean == StepsCleanly(told, start, frame)
    requires told == BeforeTick(e, start, turns, inSlot0) && e' == PlayTurns(e, start, turns, inSlot0)
    ensures |e'.sim.ticks| == |turns| && !e'.sim.foreign <==> clean
    ensures clean ==> e'.sim == Ticked(told.sim, Inputs(turns[|turns| - 1].local, GetRemote(told, frame), inSlot0))
    ensures told.sim == PlayTurns(e, start, turns[..|turns| - 1], inSlot0).sim
  {
    CleanSoFar(e, start, turns[..|turns| - 1], inSlot0, frame);
    LastTurn(e, start, turns, inSlot0, frame, clean, told, e');
  }

  /** After these turns the simulation is a run of their frames, with some inputs. */
  ghost predicate CleanAfter(e: Engine<History>, start: nat, turns: seq<Turn>, inSlot0: bool)
    requires Shape(e)
  {
    IsCleanRun(PlayTurns(e, start, turns, inSlot0).sim, start, |turns|)
  }

  /** After these turns the simulation is the run of their frames with the inputs both sides gave. */
  predicate TrueAfter(e: Engine<History>, start: nat, turns: seq<Turn>, inSlot0: bool, sent: nat -> uint16)
    requires Shape(e)
  {
    PlayTurns(e, start, turns, inSlot0).sim == Truth(start, turns, inSlot0, sent)
  }

  /** So it is after every tick. */
  ghost predicate CleanThroughout(e: Engine<History>, start: nat, turns: seq<Turn>, inSlot0: bool)
    requires Shape(e)
    decreases |turns|
  {
    && (turns == [] || CleanThroughout(e, start, turns[..|turns| - 1], inSlot0))
    && CleanAfter(e, start, turns, inSlot0)
  }

  predicate TrueThroughout(e: Engine<History>, start: nat, turns: seq<Turn>, inSlot0: bool, sent: nat -> uint16)
    requires Shape(e)
    decreases |turns|
  {
    && (turns == [] || TrueThroughout(e, start, turns[..|turns| - 1], inSlot0, sent))
    && TrueAfter(e, start, turns, inSlot0, sent)
  }

  lemma CleanAtStart(e: Engine<History>, start: nat, inSlot0: bool, sent: nat -> uint16)
    requires Begins(e)
    ensures CleanAfter(e, start, [], inSlot0) && TrueAfter(e, start, [], inSlot0, sent)
  {
    CleanRunExactly(INITIAL, start, 0);
  }

  /** For any inputs, whenever they arrive and whatever frames they are for: after every tick the main
      loop is at a run of the frames it has simulated, if and only if every tick finds no divergence
      pending or one of the harmless ones. */
  lemma {:induction false} MainLoopIsCleanExactly(e: Engine<History>, start: nat, turns: seq<Turn>, inSlot0: bool)
    requires Begins(e)
    ensures CleanThroughout(e, start, turns, inSlot0) <==> TicksCleanly(e, start, turns, inSlot0)
    decreases |turns|
  {
    if turns == [] {
      CleanAtStart(e, start, inSlot0, f => 0);
    } else {
      var n := |turns| - 1;
      MainLoopIsCleanExactly(e, start, turns[..n], inSlot0);
      if TicksCleanly(e, start, turns[..n], inSlot0) {
        CleanStepExactly(e, start, turns, inSlot0);
      }
    }
  }

  lemma CleanStepExactly(e: Engine<History>, start: nat, turns: seq<Turn>, inSlot0: bool)
    requires Begins(e) && turns != [] && TicksCleanly(e, start, turns[..|turns| - 1], inSlot0)
    ensures CleanAfter(e, start, turns, inSlot0) <==> LastIsClean(e, start, turns, inSlot0)
  {
    LastTurnExactly(e, start, turns, inSlot0, start + |turns| - 1, LastIsClean(e, start, turns, inSlot0),
      BeforeTick(e, start, turns, inSlot0), PlayTurns(e, start, turns, inSlot0));
    CleanRunExactly(PlayTurns(e, start, turns, inSlot0).sim, start, |turns|);
  }

  /** And it is the run with the inputs that were given if and only if moreover every tick predicts
      the input the other side sent for its frame. */
  lemma {:induction false} MainLoopIsTrueExactly(e: Engine<History>, start: nat, turns: seq<Turn>, inSlot0: bool,
      sent: nat -> uint16)
    requires Begins(e)
    ensures TrueThroughout(e, start, turns, inSlot0, sent) <==>
            TicksCleanly(e, start, turns, inSlot0) && PredictsRight(e, start, turns, inSlot0, sent)
    decreases |turns|
  {
    if turns == [] {
      CleanAtStart(e, start, inSlot0, sent);
    } else {
      var n := |turns| - 1;
      MainLoopIsTrueExactly(e, start, turns[..n], inSlot0, sent);
      if TrueThroughout(e, start, turns[..n], inSlot0, sent) {
        TrueSoFar(e, start, turns[..n], inSlot0, sent);
        TrueStepExactly(e, start, turns, inSlot0, sent);
      }
    }
  }

  lemma TrueSoFar(e: Engine<History>, start: nat, turns: seq<Turn>, inSlot0: bool, sent: nat -> uint16)
    requires Shape(e) && TrueThroughout(e, start, turns, inSlot0, sent)
    ensures TrueAfter(e, start, turns, inSlot0, sent)
  {
  }

  /** A history after a tick against the true one. */
  lemma TruthStep(g: History, g': History, h: History, h': History, count: nat, clean: bool, local: uint16,
      guess: uint16, given: uint16, inSlot0: bool)
    requires |g'.ticks| == count && !g'.foreign <==> clean
    requires clean ==> g' == Ticked(g, Inputs(local, guess, inSlot0))
    requires h' == Ticked(h, Inputs(local, given, inSlot0)) && |h'.ticks| == count && !h'.foreign
    ensures g' == h' <==> clean && guess == given && g == h
  {
    if g' == h' {
      var n := |g.ticks|;
      assert g'.ticks[n] == Inputs(local, guess, inSlot0) && h'.ticks[n] == Inputs(local, given, inSlot0);
      assert g.ticks == g'.ticks[..n] == h'.ticks[..n] == h.ticks;
    }
  }

  lemma TruthLast(start: nat, turns: seq<Turn>, inSlot0: bool, sent: nat -> uint16, frame: nat)
    requires turns != [] && frame == start + |turns| - 1
    ensures Truth(start, turns, inSlot0, sent)
         == Ticked(Truth(start, turns[..|turns| - 1], inSlot0, sent),
              Inputs(turns[|turns| - 1].local, sent(frame), inSlot0))
  {
  }

  /** What the last of several turns does to the truth when those before it were clean. */
  lemma TrueByLast(e: Engine<History>, start: nat, turns: seq<Turn>, inSlot0: bool, sent: nat -> uint16, frame: nat,
      clean: bool, told: Engine<History>, e': Engine<History>, h: History, h': History)
    requires Begins(e) && turns != [] && TicksCleanly(e, start, turns[..|turns| - 1], inSlot0)
    requires frame == start + |turns| - 1 && clean == StepsCleanly(told, start, frame)
    requires told == BeforeTick(e, start, turns, inSlot0) && e' == PlayTurns(e, start, turns, inSlot0)
    requires h == Truth(start, turns[..|turns| - 1], inSlot0, sent) && h' == Truth(start, turns, inSlot0, sent)
    ensures e'.sim == h' <==> clean && Right(told, frame, sent) && told.sim == h
    ensures told.sim == PlayTurns(e, start, turns[..|turns| - 1], inSlot0).sim
  {
    LastTurnExactly(e, start, turns, inSlot0, frame, clean, told, e');
    TruthLast(start, turns, inSlot0, sent, frame);
    TruthStep(told.sim, e'.sim, h, h', |turns|, clean, turns[|turns| - 1].local, GetRemote(told, frame), sent(frame),
      inSlot0);
  }

  lemma TrueStepExactly(e: Engine<History>, start: nat, turns: seq<Turn>, inSlot0: bool, sent: nat -> uint16)
    requires Begins(e) && turns != [] && TicksCleanly(e, start, turns[..|turns| - 1], inSlot0)
    ensures TrueAfter(e, start, turns, inSlot0, sent) <==>
            && LastIsClean(e, start, turns, inSlot0) && LastIsRight(e, start, turns, inSlot0, sent)
            && TrueAfter(e, start, turns[..|turns| - 1], inSlot0, sent)
  {
    TrueByLast(e, start, turns, inSlot0, sent, start + |turns| - 1, LastIsClean(e, start, turns, inSlot0),
      BeforeTick(e, start, turns, inSlot0), PlayTurns(e, start, turns, inSlot0),
      Truth(start, turns[..|turns| - 1], inSlot0, sent), Truth(start, turns, inSlot0, sent));
  }

  /** After clean ticks the state itself tells whether every prediction was right. */
  lemma {:induction false} CleanIsTrueExactly(e: Engine<History>, start: nat, turns: seq<Turn>, inSlot0: bool,
      sent: nat -> uint16)
    requires Begins(e) && TicksCleanly(e, start, turns, inSlot0)
    ensures TrueAfter(e, start, turns, inSlot0, sent) <==> PredictsRight(e, start, turns, inSlot0, sent)
    decreases |turns|
  {
    if turns == [] {
      CleanAtStart(e, start, inSlot0, sent);
    } else {
      CleanIsTrueExactly(e, start, turns[..|turns| - 1], inSlot0, sent);
      TrueStepExactly(e, start, turns, inSlot0, sent);
    }
  }
}
