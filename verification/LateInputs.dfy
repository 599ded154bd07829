/** Fights in which inputs arrive only after their frame has been simulated: the case rollback is for. */
module LateInputs {
  import opened Bytes
  import opened Rollback
  import opened MainLoop
  import opened FightRuns

  /** Inputs arrive only for frames before the one to be simulated next. */
  ghost predicate OfThePast(start: nat, turns: seq<Turn>) {
    forall i, j :: 0 <= i < |turns| && 0 <= j < |turns[i].confirms| ==> turns[i].confirms[j].0 < start + i
  }

  /** No tick of the run finds a divergence pending. */
  predicate NeverRewinds(e: Engine<History>, start: nat, turns: seq<Turn>, inSlot0: bool)
    requires Shape(e)
    decreases |turns|
  {
    turns == [] ||
    (NeverRewinds(e, start, turns[..|turns| - 1], inSlot0) && BeforeTick(e, start, turns, inSlot0).diverge < 0)
  }

  lemma {:induction false} ArrivalsOfThePast(e: Engine<History>, cs: seq<(RingFrame, uint16)>, frame: nat)
    requires Shape(e) && e.diverge < frame && forall j :: 0 <= j < |cs| ==> cs[j].0 < frame
    ensures ArriveAll(e, cs).diverge < frame
    decreases |cs|
  {
    if cs != [] {
      ArrivalsOfThePast(e, cs[..|cs| - 1], frame);
    }
  }

  /** A tick leaves no divergence pending. */
  lemma NothingPending(e: Engine<History>, start: nat, turns: seq<Turn>, inSlot0: bool)
    requires Begins(e) && e.diverge < 0
    ensures PlayTurns(e, start, turns, inSlot0).diverge < 0
  {
    if turns != [] {
      var n := |turns| - 1;
      PlayLast(e, start, turns, inSlot0);
      MainTickLength(BeforeTick(e, start, turns, inSlot0), start + n, turns[n].local, inSlot0);
    }
  }

  lemma BeforeTickOfThePast(e: Engine<History>, start: nat, turns: seq<Turn>, inSlot0: bool)
    requires Begins(e) && e.diverge < 0 && OfThePast(start, turns) && turns != []
    ensures BeforeTick(e, start, turns, inSlot0).diverge < start + |turns| - 1
  {
    var n := |turns| - 1;
    NothingPending(e, start, turns[..n], inSlot0);
    ArrivalsOfThePast(PlayTurns(e, start, turns[..n], inSlot0), turns[n].confirms, start + n);
  }

  /** With late inputs only, no rewind is harmless. */
  lemma {:induction false} CleanIsNeverRewinding(e: Engine<History>, start: nat, turns: seq<Turn>, inSlot0: bool)
    requires Begins(e) && e.diverge < 0 && OfThePast(start, turns)
    ensures TicksCleanly(e, start, turns, inSlot0) <==> NeverRewinds(e, start, turns, inSlot0)
    decreases |turns|
  {
    if turns != [] {
      CleanIsNeverRewinding(e, start, turns[..|turns| - 1], inSlot0);
      BeforeTickOfThePast(e, start, turns, inSlot0);
    }
  }

  // ----- The end of a run -----

  lemma ArrivalsKeepAhead(e: Engine<History>, cs: seq<(RingFrame, uint16)>, start: nat, frame: nat, extra: nat)
    requires AtLeast(e, start, frame, extra)
    ensures AtLeast(ArriveAll(e, cs), start, frame, extra)
  {
  }

  lemma LateTick(before: Engine<History>, cs: seq<(RingFrame, uint16)>, told: Engine<History>, e': Engine<History>,
      start: nat, frame: nat, next: nat, extra: nat, local: uint16, inSlot0: bool)
    requires AtLeast(before, start, frame, extra) && extra <= 1 && next == frame + 1
    requires told == ArriveAll(before, cs) && told.diverge < frame
    requires e' == MainTick(told, frame, local, inSlot0, Remember)
    ensures AtLeast(e', start, next, if told.diverge >= 0 then 1 else extra)
  {
    ArrivalsKeepAhead(before, cs, start, frame, extra);
    TickAtLeast(told, start, frame, extra, local, inSlot0);
  }

  lemma LateLast(e: Engine<History>, start: nat, turns: seq<Turn>, inSlot0: bool, frame: nat, next: nat, extra: nat)
    requires Begins(e) && e.diverge < 0 && OfThePast(start, turns)
    requires turns != [] && frame == start + |turns| - 1 && next == frame + 1
    requires AtLeast(PlayTurns(e, start, turns[..|turns| - 1], inSlot0), start, frame, extra) && extra <= 1
    ensures AtLeast(PlayTurns(e, start, turns, inSlot0), start, next,
              if BeforeTick(e, start, turns, inSlot0).diverge >= 0 then 1 else extra)
  {
    var n := |turns| - 1;
    BeforeTickOfThePast(e, start, turns, inSlot0);
    PlayLast(e, start, turns, inSlot0);
    LateTick(PlayTurns(e, start, turns[..n], inSlot0), turns[n].confirms, BeforeTick(e, start, turns, inSlot0),
      PlayTurns(e, start, turns, inSlot0), start, frame, next, extra, turns[n].local, inSlot0);
  }

  /** Once the main loop has rewound it stays ahead of time. */
  lemma {:induction false} LateRun(e: Engine<History>, start: nat, turns: seq<Turn>, inSlot0: bool)
    requires Begins(e) && e.diverge < 0 && OfThePast(start, turns)
    ensures AtLeast(PlayTurns(e, start, turns, inSlot0), start, start + |turns|,
              if NeverRewinds(e, start, turns, inSlot0) then 0 else 1)
    decreases |turns|
  {
    if turns != [] {
      var n := |turns| - 1;
      LateRun(e, start, turns[..n], inSlot0);
      LateLast(e, start, turns, inSlot0, start + n, start + |turns|,
        if NeverRewinds(e, start, turns[..n], inSlot0) then 0 else 1);
    }
  }

  /** With late inputs only, the state at the end alone tells: it is a run of the frames simulated, with
      whatever inputs, if and only if the main loop has never rewound. Nothing makes up for a rewind. */
  lemma {:induction false} LateRunIsCleanExactly(e: Engine<History>, start: nat, turns: seq<Turn>, inSlot0: bool)
    requires Begins(e) && e.diverge < 0 && OfThePast(start, turns)
    ensures CleanAfter(e, start, turns, inSlot0) <==> NeverRewinds(e, start, turns, inSlot0)
  {
    CleanRunExactly(PlayTurns(e, start, turns, inSlot0).sim, start, |turns|);
    if NeverRewinds(e, start, turns, inSlot0) {
      CleanIsNeverRewinding(e, start, turns, inSlot0);
      CleanSoFar(e, start, turns, inSlot0, start + |turns|);
    } else {
      LateRun(e, start, turns, inSlot0);
    }
  }

  /** And it is the run with the inputs given if and only if moreover every prediction was right. */
  lemma {:induction false} LateRunIsTrueExactly(e: Engine<History>, start: nat, turns: seq<Turn>, inSlot0: bool,
      sent: nat -> uint16)
    requires Begins(e) && e.diverge < 0 && OfThePast(start, turns)
    ensures TrueAfter(e, start, turns, inSlot0, sent) <==>
            NeverRewinds(e, start, turns, inSlot0) && PredictsRight(e, start, turns, inSlot0, sent)
  {
    LateRunIsCleanExactly(e, start, turns, inSlot0);
    CleanRunExactly(PlayTurns(e, start, turns, inSlot0).sim, start, |turns|);
    CleanIsNeverRewinding(e, start, turns, inSlot0);
    if NeverRewinds(e, start, turns, inSlot0) {
      CleanIsTrueExactly(e, start, turns, inSlot0, sent);
    }
  }

  // ----- The condition on the inputs alone -----

  /** The first fight after launch: the ring is as it was initialized, all zeros. */
  ghost predicate Unused(e: Engine<History>) {
    Begins(e) && e.diverge < 0 && forall k :: 0 <= k < FRAMES ==> e.ring[k].remote == 0 && !e.ring[k].confirmed
  }

  /** All inputs that arrive during the turns, in order. */
  function Arrivals(turns: seq<Turn>): seq<(RingFrame, uint16)>
    decreases |turns|
  {
    if turns == [] then [] else Arrivals(turns[..|turns| - 1]) + turns[|turns| - 1].confirms
  }

  /** Inputs arrive late, but no later than the ring is long. */
  ghost predicate WithinTheRing(start: nat, turns: seq<Turn>) {
    forall i, j :: 0 <= i < |turns| && 0 <= j < |turns[i].confirms| ==>
      0 <= turns[i].confirms[j].0 < start + i <= turns[i].confirms[j].0 + FRAMES
  }

  /** Frames increase, as the relay delivers them. */
  ghost predicate Increasing(cs: seq<(RingFrame, uint16)>) {
    forall a, b :: 0 <= a < b < |cs| ==> cs[a].0 < cs[b].0
  }

  predicate AllZero(cs: seq<(RingFrame, uint16)>) {
    forall a :: 0 <= a < |cs| ==> cs[a].1 == 0
  }

  function LastFrame(cs: seq<(RingFrame, uint16)>): int {
    if cs == [] then -1 else cs[|cs| - 1].0
  }

  /** Nothing but zeros has arrived, the last for frame `last`, and the later frames of the ring are
      unconfirmed. */
  ghost predicate Idle(e: Engine<History>, frame: nat, last: int) {
    && Shape(e) && e.diverge < 0
    && (forall k :: 0 <= k < FRAMES ==> e.ring[k].remote == 0)
    && (forall g: nat :: last < g < frame <= g + FRAMES ==> !e.ring[Slot(g)].confirmed)
  }

  /** One more input: a zero changes nothing, any other raises a divergence. */
  lemma OneArrival(e: Engine<History>, frame: nat, last: int, f: RingFrame, input: uint16)
    requires Idle(e, frame, last) && 0 <= f && last < f < frame <= f + FRAMES
    ensures if input == 0 then Idle(Arrive(e, f, input), frame, f) else Arrive(e, f, input).diverge >= 0
  {
    if input == 0 {
      forall g: nat | f < g < frame <= g + FRAMES
        ensures !Arrive(e, f, input).ring[Slot(g)].confirmed
      {
        SlotsDiffer(f, g, f);
      }
    }
  }

  lemma {:induction false} SomeArrivals(e: Engine<History>, frame: nat, last: int, cs: seq<(RingFrame, uint16)>)
    requires Idle(e, frame, last) && Increasing(cs)
    requires forall j :: 0 <= j < |cs| ==> 0 <= cs[j].0 && last < cs[j].0 < frame <= cs[j].0 + FRAMES
    ensures if AllZero(cs) then Idle(ArriveAll(e, cs), frame, if cs == [] then last else LastFrame(cs))
            else ArriveAll(e, cs).diverge >= 0
    decreases |cs|
  {
    if cs != [] {
      var n := |cs| - 1;
      SomeArrivals(e, frame, last, cs[..n]);
      assert AllZero(cs) <==> AllZero(cs[..n]) && cs[n].1 == 0;
      if AllZero(cs[..n]) {
        var before := if n == 0 then last else LastFrame(cs[..n]);
        OneArrival(ArriveAll(e, cs[..n]), frame, before, cs[n].0, cs[n].1);
      }
    }
  }

  lemma IdleTick(e: Engine<History>, frame: nat, last: int, local: uint16, inSlot0: bool)
    requires Idle(e, frame, last)
    ensures GetRemote(e, frame) == 0 && Idle(MainTick(e, frame, local, inSlot0, Remember), frame + 1, last)
  {
    var e' := MainTick(e, frame, local, inSlot0, Remember);
    forall g: nat | last < g < frame + 1 <= g + FRAMES
      ensures !e'.ring[Slot(g)].confirmed
    {
      if g < frame {
        SlotsDiffer(g, frame, g);
      }
    }
  }

  lemma SplitIncreasing(a: seq<(RingFrame, uint16)>, b: seq<(RingFrame, uint16)>)
    requires Increasing(a + b)
    ensures Increasing(a) && Increasing(b)
    ensures forall j :: 0 <= j < |b| ==> a == [] || LastFrame(a) < b[j].0
    ensures AllZero(a + b) <==> AllZero(a) && AllZero(b)
    ensures LastFrame(a + b) == if b == [] then LastFrame(a) else LastFrame(b)
  {
    var all := a + b;
    assert forall i :: 0 <= i < |a| ==> all[i] == a[i];
    assert forall j :: 0 <= j < |b| ==> all[|a| + j] == b[j];
  }

  /** Every tick predicts zero for the other side. */
  predicate PredictsZeros(e: Engine<History>, start: nat, turns: seq<Turn>, inSlot0: bool)
    requires Shape(e)
    decreases |turns|
  {
    turns == [] ||
    (PredictsZeros(e, start, turns[..|turns| - 1], inSlot0) && LastPredictsZero(e, start, turns, inSlot0))
  }

  predicate LastPredictsZero(e: Engine<History>, start: nat, turns: seq<Turn>, inSlot0: bool)
    requires Shape(e) && turns != []
  {
    GetRemote(BeforeTick(e, start, turns, inSlot0), start + |turns| - 1) == 0
  }

  /** One turn from an idle engine. */
  lemma QuietTurn(before: Engine<History>, cs: seq<(RingFrame, uint16)>, told: Engine<History>, e': Engine<History>,
      frame: nat, last: int, local: uint16, inSlot0: bool)
    requires Idle(before, frame, last) && Increasing(cs)
    requires forall j :: 0 <= j < |cs| ==> 0 <= cs[j].0 && last < cs[j].0 < frame <= cs[j].0 + FRAMES
    requires told == ArriveAll(before, cs) && e' == MainTick(told, frame, local, inSlot0, Remember)
    ensures if AllZero(cs)
            then told.diverge < 0 && GetRemote(told, frame) == 0
                 && Idle(e', frame + 1, if cs == [] then last else LastFrame(cs))
            else told.diverge >= 0
  {
    SomeArrivals(before, frame, last, cs);
    if AllZero(cs) {
      IdleTick(told, frame, if cs == [] then last else LastFrame(cs), local, inSlot0);
    }
  }

  /** The inputs of the last turn come after those before it, late but within the ring. */
  lemma LastArrivals(start: nat, turns: seq<Turn>, last: int, cs: seq<(RingFrame, uint16)>, frame: nat)
    requires WithinTheRing(start, turns) && Increasing(Arrivals(turns)) && turns != []
    requires last == LastFrame(Arrivals(turns[..|turns| - 1])) && cs == turns[|turns| - 1].confirms
    requires frame == start + |turns| - 1
    ensures Increasing(cs) && LastFrame(Arrivals(turns)) == if cs == [] then last else LastFrame(cs)
    ensures forall j :: 0 <= j < |cs| ==> 0 <= cs[j].0 && last < cs[j].0 < frame <= cs[j].0 + FRAMES
  {
    SplitIncreasing(Arrivals(turns[..|turns| - 1]), cs);
  }

  /** The last of several turns, after quiet ones. */
  lemma LastQuietTurn(e: Engine<History>, start: nat, turns: seq<Turn>, inSlot0: bool, frame: nat, next: nat, last: int,
      cs: seq<(RingFrame, uint16)>)
    requires Unused(e) && turns != [] && frame == start + |turns| - 1 && next == frame + 1
    requires cs == turns[|turns| - 1].confirms && Increasing(cs)
    requires forall j :: 0 <= j < |cs| ==> 0 <= cs[j].0 && last < cs[j].0 < frame <= cs[j].0 + FRAMES
    requires Idle(PlayTurns(e, start, turns[..|turns| - 1], inSlot0), frame, last)
    ensures var told := BeforeTick(e, start, turns, inSlot0);
            if AllZero(cs)
            then told.diverge < 0 && GetRemote(told, frame) == 0
                 && Idle(PlayTurns(e, start, turns, inSlot0), next, if cs == [] then last else LastFrame(cs))
            else told.diverge >= 0
  {
    PlayLast(e, start, turns, inSlot0);
    QuietTurn(PlayTurns(e, start, turns[..|turns| - 1], inSlot0), cs, BeforeTick(e, start, turns, inSlot0),
      PlayTurns(e, start, turns, inSlot0), frame, last, turns[|turns| - 1].local, inSlot0);
  }

  /** As long as only zeros have arrived the ring is idle. */
  lemma {:induction false} IdleRun(e: Engine<History>, start: nat, turns: seq<Turn>, inSlot0: bool, next: nat)
    requires Unused(e) && WithinTheRing(start, turns) && Increasing(Arrivals(turns)) && AllZero(Arrivals(turns))
    requires next == start + |turns|
    ensures Idle(PlayTurns(e, start, turns, inSlot0), next, LastFrame(Arrivals(turns)))
    decreases |turns|
  {
    if turns != [] {
      var n := |turns| - 1;
      SplitIncreasing(Arrivals(turns[..n]), turns[n].confirms);
      IdleRun(e, start, turns[..n], inSlot0, next - 1);
      AfterIdle(e, start, turns, inSlot0, next - 1, next);
    }
  }

  /** The last of several turns, when only zeros have arrived before it. */
  lemma AfterIdle(e: Engine<History>, start: nat, turns: seq<Turn>, inSlot0: bool, frame: nat, next: nat)
    requires Unused(e) && WithinTheRing(start, turns) && Increasing(Arrivals(turns)) && turns != []
    requires frame == start + |turns| - 1 && next == frame + 1
    requires Idle(PlayTurns(e, start, turns[..|turns| - 1], inSlot0), frame, LastFrame(Arrivals(turns[..|turns| - 1])))
    ensures var told := BeforeTick(e, start, turns, inSlot0);
            if AllZero(turns[|turns| - 1].confirms)
            then told.diverge < 0 && GetRemote(told, frame) == 0
                 && Idle(PlayTurns(e, start, turns, inSlot0), next, LastFrame(Arrivals(turns)))
            else told.diverge >= 0
  {
    var last, cs := LastFrame(Arrivals(turns[..|turns| - 1])), turns[|turns| - 1].confirms;
    LastArrivals(start, turns, last, cs, frame);
    LastQuietTurn(e, start, turns, inSlot0, frame, next, last, cs);
  }

  /** Nothing is rewound as long as only zeros have arrived; the first other input is rewound. */
  lemma {:induction false} QuietExactly(e: Engine<History>, start: nat, turns: seq<Turn>, inSlot0: bool)
    requires Unused(e) && WithinTheRing(start, turns) && Increasing(Arrivals(turns))
    ensures NeverRewinds(e, start, turns, inSlot0) <==> AllZero(Arrivals(turns))
    decreases |turns|
  {
    if turns != [] {
      var n := |turns| - 1;
      SplitIncreasing(Arrivals(turns[..n]), turns[n].confirms);
      QuietExactly(e, start, turns[..n], inSlot0);
      if AllZero(Arrivals(turns[..n])) {
        IdleRun(e, start, turns[..n], inSlot0, start + n);
        AfterIdle(e, start, turns, inSlot0, start + n, start + n + 1);
      }
    }
  }

  lemma LastZeroPredicted(e: Engine<History>, start: nat, turns: seq<Turn>, inSlot0: bool, frame: nat)
    requires Unused(e) && WithinTheRing(start, turns) && Increasing(Arrivals(turns)) && AllZero(Arrivals(turns))
    requires turns != [] && frame == start + |turns| - 1
    ensures GetRemote(BeforeTick(e, start, turns, inSlot0), frame) == 0
  {
    var n := |turns| - 1;
    SplitIncreasing(Arrivals(turns[..n]), turns[n].confirms);
    IdleRun(e, start, turns[..n], inSlot0, frame);
    AfterIdle(e, start, turns, inSlot0, frame, frame + 1);
  }

  lemma {:induction false} ZerosPredicted(e: Engine<History>, start: nat, turns: seq<Turn>, inSlot0: bool)
    requires Unused(e) && WithinTheRing(start, turns) && Increasing(Arrivals(turns)) && AllZero(Arrivals(turns))
    ensures PredictsZeros(e, start, turns, inSlot0)
    decreases |turns|
  {
    if turns != [] {
      var n := |turns| - 1;
      SplitIncreasing(Arrivals(turns[..n]), turns[n].confirms);
      ZerosPredicted(e, start, turns[..n], inSlot0);
      LastZeroPredicted(e, start, turns, inSlot0, start + |turns| - 1);
    }
  }

  lemma RingIsPast(start: nat, turns: seq<Turn>)
    requires WithinTheRing(start, turns)
    ensures OfThePast(start, turns)
  {
  }

  /** Inputs that arrive late, in order and within a ring: the main loop stays at a run of the frames it
      has simulated if and only if every one of them is zero. */
  lemma {:induction false} CleanWhileNothingIsPressed(e: Engine<History>, start: nat, turns: seq<Turn>, inSlot0: bool)
    requires Unused(e) && WithinTheRing(start, turns) && Increasing(Arrivals(turns))
    ensures CleanAfter(e, start, turns, inSlot0) <==> AllZero(Arrivals(turns))
  {
    RingIsPast(start, turns);
    QuietExactly(e, start, turns, inSlot0);
    LateRunIsCleanExactly(e, start, turns, inSlot0);
  }

  /** The other side sent zeros for the n frames from start on. */
  ghost predicate SentNothing(sent: nat -> uint16, start: nat, n: nat) {
    forall f: nat :: start <= f < start + n ==> sent(f) == 0
  }

  lemma {:induction false} ZerosAreRight(e: Engine<History>, start: nat, turns: seq<Turn>, inSlot0: bool,
      sent: nat -> uint16)
    requires Shape(e) && PredictsZeros(e, start, turns, inSlot0)
    ensures PredictsRight(e, start, turns, inSlot0, sent) <==> SentNothing(sent, start, |turns|)
    decreases |turns|
  {
    if turns != [] {
      ZerosAreRight(e, start, turns[..|turns| - 1], inSlot0, sent);
    }
  }

  /** And it is at the run with the inputs given on both sides exactly while the opponent presses
      nothing. */
  lemma {:induction false} TrueWhileNothingIsPressed(e: Engine<History>, start: nat, turns: seq<Turn>, inSlot0: bool,
      sent: nat -> uint16)
    requires Unused(e) && WithinTheRing(start, turns) && Increasing(Arrivals(turns))
    ensures TrueAfter(e, start, turns, inSlot0, sent) <==>
            AllZero(Arrivals(turns)) && SentNothing(sent, start, |turns|)
  {
    RingIsPast(start, turns);
    QuietExactly(e, start, turns, inSlot0);
    LateRunIsTrueExactly(e, start, turns, inSlot0, sent);
    if AllZero(Arrivals(turns)) {
      ZerosPredicted(e, start, turns, inSlot0);
      ZerosAreRight(e, start, turns, inSlot0, sent);
    }
  }
}
