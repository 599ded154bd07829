/** The fight ticks of the main loop: what its use of the rollback ring does to a match. */
module MainLoop {
  import opened Bytes
  import opened Rollback

  /** One fight tick for the player in slot 0 or 1: predict, rewind if needed, simulate, and only
      then save. */
  function MainTick<S>(e: Engine<S>, frame: nat, local: uint16, inSlot0: bool, tick: (S, uint16, uint16) -> S):
      (r: Engine<S>)
    requires Shape(e)
    ensures Shape(r)
  {
    var remote := GetRemote(e, frame);
    var e1 := Rewind(e, frame, tick);
    var sim := if inSlot0 then tick(e1.sim, local, remote) else tick(e1.sim, remote, local);
    Save(e1.(sim := sim), frame)
  }

  // ----- Histories -----

  /** The simulation that remembers the input pair of every tick, and whether it comes from something
      else than this fight's initial state: from the zeroed memory of a slot never saved, or from an
      earlier fight. Whatever can be told from any simulation state can be told from this one. */
  datatype History = History(foreign: bool, ticks: seq<(uint16, uint16)>)

  const INITIAL: History := History(false, [])

  function Ticked(h: History, inputs: (uint16, uint16)): History {
    h.(ticks := h.ticks + [inputs])
  }

  function Remember(h: History, a: uint16, b: uint16): History {
    Ticked(h, (a, b))
  }

  lemma {:induction false} ReplayLength(ring: seq<FrameEntry<History>>, s: History, from: nat, upTo: nat)
    requires |ring| == FRAMES && from <= upTo
    ensures |Replay(ring, s, from, upTo, Remember).ticks| == |s.ticks| + upTo - from
    ensures Replay(ring, s, from, upTo, Remember).foreign == s.foreign
    decreases upTo
  {
    if from < upTo {
      ReplayLength(ring, s, from, upTo - 1);
    }
  }

  /** h is the run of the n frames from start on with these inputs, from the initial state. */
  predicate IsRunWith(h: History, start: nat, n: nat, local: nat -> uint16, remote: nat -> uint16) {
    h == CleanRun(INITIAL, local, remote, start, start + n, Remember)
  }

  /** h is a run of the n frames from start on, with some inputs. */
  ghost predicate IsCleanRun(h: History, start: nat, n: nat) {
    exists local: nat -> uint16, remote: nat -> uint16 :: IsRunWith(h, start, n, local, remote)
  }

  lemma {:induction false} CleanRunOf(h: History, local: nat -> uint16, remote: nat -> uint16, start: nat, n: nat)
    requires n <= |h.ticks|
    requires forall i :: 0 <= i < n ==> local(start + i) == h.ticks[i].0 && remote(start + i) == h.ticks[i].1
    ensures CleanRun(INITIAL, local, remote, start, start + n, Remember) == History(false, h.ticks[..n])
    decreases n
  {
    if n > 0 {
      CleanRunOf(h, local, remote, start, n - 1);
      assert h.ticks[..n] == h.ticks[..n - 1] + [h.ticks[n - 1]];
    }
  }

  lemma {:induction false} CleanRunLength(local: nat -> uint16, remote: nat -> uint16, start: nat, n: nat)
    ensures var h := CleanRun(INITIAL, local, remote, start, start + n, Remember);
            |h.ticks| == n && !h.foreign
    decreases n
  {
    if n > 0 {
      CleanRunLength(local, remote, start, n - 1);
    }
  }

  /** A history is a run of n frames exactly when it has n ticks from the initial state. */
  lemma CleanRunExactly(h: History, start: nat, n: nat)
    ensures IsCleanRun(h, start, n) <==> |h.ticks| == n && !h.foreign
  {
    if |h.ticks| == n && !h.foreign {
      var local: nat -> uint16 := f => if start <= f < start + n then h.ticks[f - start].0 else 0;
      var remote: nat -> uint16 := f => if start <= f < start + n then h.ticks[f - start].1 else 0;
      CleanRunOf(h, local, remote, start, n);
      assert h.ticks[..n] == h.ticks;
      assert IsRunWith(h, start, n, local, remote);
    }
    forall local: nat -> uint16, remote: nat -> uint16
      ensures IsRunWith(h, start, n, local, remote) ==> |h.ticks| == n && !h.foreign
    {
      CleanRunLength(local, remote, start, n);
    }
  }

  // ----- One tick -----

  /** Frames from start up to and including f. */
  function Since(start: nat, f: int): nat {
    if f >= start then f + 1 - start else 0
  }

  /** The frame before `frame` that last used the slot of d, plus one ring. */
  function Holder(d: nat, frame: nat): (g: nat)
    ensures frame <= g < frame + FRAMES && Slot(g) == Slot(d)
    ensures d < frame ==> g >= d + FRAMES
    ensures frame <= d < frame + FRAMES ==> g == d
  {
    var g := frame + (d + FRAMES * frame - frame) % FRAMES;
    HolderSlot(d, frame);
    g
  }

  lemma HolderSlot(d: nat, frame: nat)
    ensures var g := frame + (d + FRAMES * frame - frame) % FRAMES;
            && Slot(g) == Slot(d) && (d < frame ==> g >= d + FRAMES) && (frame <= d < frame + FRAMES ==> g == d)
  {
    var x := d + FRAMES * frame - frame;
    var q := x / FRAMES;
    var g := frame + x % FRAMES;
    assert g == d + FRAMES * (frame - q);
    assert Slot(g) == Slot(d) by {
      Multiple(d, frame - q, g);
    }
  }

  lemma Multiple(d: nat, m: int, g: nat)
    requires g == d + FRAMES * m
    ensures g % FRAMES == d % FRAMES
  {
  }

  /** The simulation has lived through the frames from start on, once each, and so has every
      snapshot of the last 128 frames; slots not saved since start hold something foreign. */
  ghost predicate OnTime(e: Engine<History>, start: nat, frame: nat) {
    && Shape(e) && start <= frame && |e.sim.ticks| == frame - start && !e.sim.foreign
    && (forall g: nat :: frame <= g < frame + FRAMES ==> Holds(e.ring[Slot(g)].snapshot, start, g - FRAMES))
  }

  /** What the slot of frame f holds on time. */
  predicate Holds(h: History, start: nat, f: int) {
    if f < start then h.foreign else !h.foreign && |h.ticks| == f + 1 - start
  }

  /** At least so many ticks, and `extra` more in the current state. */
  ghost predicate AtLeast(e: Engine<History>, start: nat, frame: nat, extra: nat) {
    && Shape(e) && start <= frame && |e.sim.ticks| >= frame - start + extra
    && (forall g: nat :: frame <= g < frame + FRAMES ==>
          |e.ring[Slot(g)].snapshot.ticks| >= Since(start, g - FRAMES))
  }

  /** The state a rewind leaves has as many ticks as the snapshot it starts from and the frames it
      replays. */
  lemma RewindLength(e: Engine<History>, frame: nat)
    requires Shape(e) && e.diverge >= 0
    ensures var s, h := e.ring[Slot(e.diverge)].snapshot, Rewind(e, frame, Remember).sim;
            && |h.ticks| == |s.ticks| + (if frame > e.diverge then frame - e.diverge else 0)
            && h.foreign == s.foreign
  {
    var upTo := if frame > e.diverge then frame else e.diverge;
    ReplayLength(e.ring, e.ring[Slot(e.diverge)].snapshot, e.diverge, upTo);
  }

  lemma MainTickLength(e: Engine<History>, frame: nat, local: uint16, inSlot0: bool)
    requires Shape(e)
    ensures var e' := MainTick(e, frame, local, inSlot0, Remember);
            && |e'.sim.ticks| == |Rewind(e, frame, Remember).sim.ticks| + 1
            && e'.sim.foreign == Rewind(e, frame, Remember).sim.foreign
            && e'.diverge == (if e.diverge < 0 then e.diverge else -1)
            && (forall k: nat :: k < FRAMES ==>
                  e'.ring[k].snapshot ==
                  (if k == Slot(frame) then e'.sim else Rewind(e, frame, Remember).ring[k].snapshot))
  {
  }

  /** No divergence is pending, or one of a frame not simulated yet whose slot happens to hold the
      state just reached, because the frame before `frame` was saved in it. */
  predicate StepsCleanly(e: Engine<History>, start: nat, frame: nat) {
    e.diverge < 0 || (e.diverge >= frame > start && Slot(e.diverge + 1) == Slot(frame))
  }

  /** The slot of d was last used by the frame before `frame` exactly when d + 1 and `frame` share a slot. */
  lemma LastHolder(d: nat, frame: nat, g: nat)
    requires frame <= g < frame + FRAMES && Slot(g) == Slot(d)
    ensures g - FRAMES == frame - 1 <==> Slot(d + 1) == Slot(frame)
  {
  }

  /** A tick with a divergence pending starts from what its slot holds: the state after the last frame
      that shares the slot, or something foreign if no frame of this fight does. */
  lemma TickFromHeld(e: Engine<History>, start: nat, frame: nat, local: uint16, inSlot0: bool, last: int)
    requires OnTime(e, start, frame) && e.diverge >= 0 && last == Holder(e.diverge, frame) - FRAMES
    ensures var h := MainTick(e, frame, local, inSlot0, Remember).sim;
            && (h.foreign <==> last < start)
            && (last >= start ==>
                  |h.ticks| == last + 2 - start + (if frame > e.diverge then frame - e.diverge else 0))
  {
    var g := Holder(e.diverge, frame);
    MainTickLength(e, frame, local, inSlot0);
    RewindLength(e, frame);
    assert e.ring[Slot(e.diverge)].snapshot == e.ring[Slot(g)].snapshot;
  }

  /** When the past is in order, a tick leaves a run of the frames so far exactly in these cases. A
      pending divergence of a past frame, the case rewinding is for, always leaves a frame too many. */
  lemma TickIsCleanExactly(e: Engine<History>, start: nat, frame: nat, local: uint16, inSlot0: bool)
    requires OnTime(e, start, frame)
    ensures IsCleanRun(MainTick(e, frame, local, inSlot0, Remember).sim, start, frame + 1 - start)
       <==> StepsCleanly(e, start, frame)
  {
    CleanRunExactly(MainTick(e, frame, local, inSlot0, Remember).sim, start, frame + 1 - start);
    if e.diverge < 0 {
      MainTickLength(e, frame, local, inSlot0);
    } else {
      var g := Holder(e.diverge, frame);
      TickFromHeld(e, start, frame, local, inSlot0, g - FRAMES);
      if e.diverge >= frame {
        LastHolder(e.diverge, frame, g);
      }
    }
  }

  /** The other side's frame counter is ahead, however far: an input for a frame not simulated yet that
      its slot does not expect sends the simulation back to what that slot holds, the state after the
      last frame that shares it, or something foreign if there is none. */
  lemma AheadConfirmForgets(e: Engine<History>, start: nat, frame: nat, local: uint16, inSlot0: bool, f: nat,
      input: uint16)
    requires OnTime(e, start, frame) && e.diverge < 0
    requires frame <= f && Mismatch(e, f, input)
    ensures var h := MainTick(Confirm(e, f, input), frame, local, inSlot0, Remember).sim;
            var last := Holder(f, frame) - FRAMES;
            if last < start then h.foreign else !h.foreign && |h.ticks| == last + 2 - start
  {
    TickFromHeld(Confirm(e, f, input), start, frame, local, inSlot0, Holder(f, frame) - FRAMES);
  }

  // ----- What a late input reveals -----

  /** When the input for a frame arrives after its tick, it is compared with what the slot held before
      that tick, one ring earlier or more, and not with what was simulated. */
  lemma DetectionExactly<S>(e: Engine<S>, frame: nat, local: uint16, inSlot0: bool, tick: (S, uint16, uint16) -> S,
      input: uint16)
    requires Shape(e)
    ensures Confirm(MainTick(e, frame, local, inSlot0, tick), frame, input).diverge >= 0
       <==> input != e.ring[Slot(frame)].remote
  {
  }

  /** The inputs that raise a divergence when they arrive after the tick are those that were not predicted. */
  ghost predicate Reveals<S>(before: Engine<S>, after: Engine<S>, frame: nat)
    requires Shape(before) && Shape(after)
  {
    forall input: uint16 :: Confirm(after, frame, input).diverge >= 0 <==> input != GetRemote(before, frame)
  }

  /** So late inputs reveal exactly the wrong predictions if and only if the slot held the very input
      that was predicted. */
  lemma DetectsMispredictionsExactly<S>(e: Engine<S>, frame: nat, local: uint16, inSlot0: bool,
      tick: (S, uint16, uint16) -> S)
    requires Shape(e)
    ensures Reveals(e, MainTick(e, frame, local, inSlot0, tick), frame)
       <==> e.ring[Slot(frame)].remote == GetRemote(e, frame)
  {
    var e' := MainTick(e, frame, local, inSlot0, tick);
    forall input: uint16
      ensures Confirm(e', frame, input).diverge >= 0 <==> input != e.ring[Slot(frame)].remote
    {
      DetectionExactly(e, frame, local, inSlot0, tick, input);
    }
    var stale := e.ring[Slot(frame)].remote;
    assert !(Confirm(e', frame, stale).diverge >= 0);
  }

  /** Otherwise the input the slot held is a wrong prediction that goes unnoticed, and the predicted
      input itself raises a false alarm. */
  lemma MissedMisprediction<S>(e: Engine<S>, frame: nat, local: uint16, inSlot0: bool, tick: (S, uint16, uint16) -> S)
    requires Shape(e) && e.ring[Slot(frame)].remote != GetRemote(e, frame)
    ensures var e' := MainTick(e, frame, local, inSlot0, tick);
            && Confirm(e', frame, e.ring[Slot(frame)].remote).diverge < 0
            && Confirm(e', frame, GetRemote(e, frame)).diverge == frame
  {
  }

  /** An input that arrives after one for the frame a ring earlier is not compared at all: the earlier
      one has confirmed the slot they share. */
  lemma SwallowedInput<S>(e: Engine<S>, frame: nat, before: uint16, input: uint16)
    requires Shape(e) && frame >= FRAMES && e.diverge < 0 && e.ring[Slot(frame)].remote == before
    ensures Confirm(Confirm(e, frame - FRAMES, before), frame, input).diverge < 0
  {
    assert Slot(frame - FRAMES) == Slot(frame);
  }

  // ----- What a clean tick keeps -----

  /** What the slot of frame f holds when the past is in order: the current history as it was then. */
  predicate HoldsPrefix(held: History, h: History, start: nat, f: int)
    requires f < start + |h.ticks|
  {
    if f < start then held.foreign else held == h.(ticks := h.ticks[..f + 1 - start])
  }

  /** The past is in order: every snapshot is what the current history was then. */
  ghost predicate InOrder(e: Engine<History>, start: nat, frame: nat) {
    && Shape(e) && start <= frame && |e.sim.ticks| == frame - start && !e.sim.foreign
    && (forall g: nat :: frame <= g < frame + FRAMES ==>
          HoldsPrefix(e.ring[Slot(g)].snapshot, e.sim, start, g - FRAMES))
  }

  /** The input pair (P1, P2) of a tick. */
  function Inputs(local: uint16, remote: uint16, inSlot0: bool): (uint16, uint16) {
    if inSlot0 then (local, remote) else (remote, local)
  }

  /** A rewind in the harmless cases goes back to the state the simulation is in. */
  lemma CleanRewind(e: Engine<History>, start: nat, frame: nat)
    requires InOrder(e, start, frame) && StepsCleanly(e, start, frame)
    ensures Rewind(e, frame, Remember).sim == e.sim && Rewind(e, frame, Remember).ring == e.ring
  {
    if e.diverge >= 0 {
      RewindToAFrameNotSimulated(e, frame, Remember);
      var g := Holder(e.diverge, frame);
      LastHolder(e.diverge, frame, g);
      assert HoldsPrefix(e.ring[Slot(g)].snapshot, e.sim, start, g - FRAMES);
    }
  }

  /** A clean tick adds the local input and the predicted one, and keeps the past in order. */
  lemma CleanTick(e: Engine<History>, start: nat, frame: nat, local: uint16, inSlot0: bool)
    requires InOrder(e, start, frame) && StepsCleanly(e, start, frame)
    ensures var e' := MainTick(e, frame, local, inSlot0, Remember);
            && e'.sim == Ticked(e.sim, Inputs(local, GetRemote(e, frame), inSlot0))
            && InOrder(e', start, frame + 1)
  {
    CleanRewind(e, start, frame);
    MainTickLength(e, frame, local, inSlot0);
    var e' := MainTick(e, frame, local, inSlot0, Remember);
    forall g: nat | frame + 1 <= g < frame + 1 + FRAMES
      ensures HoldsPrefix(e'.ring[Slot(g)].snapshot, e'.sim, start, g - FRAMES)
    {
      SlotOfNext(frame, g);
      if g < frame + FRAMES {
        assert HoldsPrefix(e.ring[Slot(g)].snapshot, e.sim, start, g - FRAMES);
      }
    }
  }

  // ----- What a rewind to a past frame does for good -----

  lemma SlotOfNext(frame: nat, g: nat)
    requires frame + 1 <= g < frame + 1 + FRAMES
    ensures Slot(g) == Slot(frame) <==> g == frame + FRAMES
  {
  }

  lemma HeldByDivergence(e: Engine<History>, start: nat, frame: nat)
    requires AtLeast(e, start, frame, 0) && 0 <= e.diverge < frame
    ensures |e.ring[Slot(e.diverge)].snapshot.ticks| >= Since(start, e.diverge)
  {
    var held := Holder(e.diverge, frame);
    assert |e.ring[Slot(held)].snapshot.ticks| >= Since(start, held - FRAMES);
  }

  /** A rewind to a past frame leaves at least one entry too many. */
  lemma RewoundState(e: Engine<History>, start: nat, frame: nat)
    requires AtLeast(e, start, frame, 0) && 0 <= e.diverge < frame
    ensures |Rewind(e, frame, Remember).sim.ticks| >= frame - start + 1
  {
    HeldByDivergence(e, start, frame);
    RewindLength(e, frame);
  }

  /** The snapshot a rewind to a past frame leaves in the slot of g. */
  lemma RewoundSnapshot(e: Engine<History>, start: nat, frame: nat, g: nat)
    requires AtLeast(e, start, frame, 0) && 0 <= e.diverge < frame && frame <= g < frame + FRAMES
    ensures |Rewind(e, frame, Remember).ring[Slot(g)].snapshot.ticks| >= Since(start, g - FRAMES)
  {
    var d, f := e.diverge, g - FRAMES;
    var s := e.ring[Slot(d)].snapshot;
    HeldByDivergence(e, start, frame);
    if f >= d {
      assert Slot(f) == Slot(g);
      SnapshotOfFrame(e.ring, s, d, frame, Remember, f);
      ReplayLength(e.ring, s, d, f + 1);
    } else {
      forall f': nat | d <= f' < frame
        ensures Slot(f') != Slot(g)
      {
        SlotsDiffer(f', g, if f + 1 >= 0 then f + 1 else 0);
      }
      UntouchedSnapshot(e.ring, s, d, frame, Remember, Slot(g));
    }
  }

  /** A rewind to a past frame puts the simulation ahead of time, and nothing brings it back. */
  lemma TickAtLeast(e: Engine<History>, start: nat, frame: nat, extra: nat, local: uint16, inSlot0: bool)
    requires AtLeast(e, start, frame, extra) && e.diverge < frame && extra <= 1
    ensures AtLeast(MainTick(e, frame, local, inSlot0, Remember), start, frame + 1, if e.diverge >= 0 then 1 else extra)
  {
    var e' := MainTick(e, frame, local, inSlot0, Remember);
    MainTickLength(e, frame, local, inSlot0);
    if e.diverge >= 0 {
      RewoundState(e, start, frame);
    }
    forall g: nat | frame + 1 <= g < frame + 1 + FRAMES
      ensures |e'.ring[Slot(g)].snapshot.ticks| >= Since(start, g - FRAMES)
    {
      SlotOfNext(frame, g);
      if g < frame + FRAMES && e.diverge >= 0 {
        RewoundSnapshot(e, start, frame, g);
      }
    }
  }

  /** For example, with a tick that counts, two frames and one late input leave the count at three. */
  lemma RewindOvershoots()
    ensures var tick := (s: int, a: uint16, b: uint16) => s + 1;
            var e0 := Engine(seq(FRAMES, i => FrameEntry(0, 0, 0, false)), -1, 0);
            var e1 := Confirm(MainTick(e0, 1, 0, true, tick), 1, 5);
            e1.diverge == 1 && MainTick(e1, 2, 0, true, tick).sim == 3
            && CleanRun(0, f => 0, f => 5, 1, 3, tick) == 2
  {
    var tick := (s: int, a: uint16, b: uint16) => s + 1;
    var e0 := Engine(seq(FRAMES, i => FrameEntry(0, 0, 0, false)), -1, 0);
    var m1 := MainTick(e0, 1, 0, true, tick);
    assert Rewind(e0, 1, tick) == e0;
    assert m1.ring[1] == FrameEntry(1, 0, 0, false);
    var e1 := Confirm(m1, 1, 5);
    assert Replay(e1.ring, 1, 1, 1, tick) == 1;
    assert Replay(e1.ring, 1, 1, 2, tick) == 2;
    assert CleanRun(0, f => 0, f => 5, 1, 1, tick) == 0;
  }
}
