/** The client's rollback ring, for any simulation state and any deterministic tick. */
module Rollback {
  import opened Bytes

  const FRAMES: nat := 128

  datatype FrameEntry<S> = FrameEntry(snapshot: S, local: uint16, remote: uint16, confirmed: bool)

  function Slot(frame: nat): (r: nat)
    ensures r < FRAMES
  {
    frame % FRAMES
  }

  // ----- The engine as functions on values -----

  datatype Engine<S> = Engine(ring: seq<FrameEntry<S>>, diverge: int, sim: S)

  predicate Shape<S>(e: Engine<S>) {
    |e.ring| == FRAMES
  }

  /** Store the current simulation state; the remote input of the slot stays as it is. */
  function Save<S>(e: Engine<S>, frame: nat): (r: Engine<S>)
    requires Shape(e)
    ensures Shape(r)
  {
    e.(ring := e.ring[Slot(frame) := e.ring[Slot(frame)].(snapshot := e.sim, local := 0, confirmed := false)])
  }

  /** The input to use for the remote player: the confirmed one, else whatever the slot of the
      previous frame holds. */
  function GetRemote<S>(e: Engine<S>, frame: nat): uint16
    requires Shape(e)
  {
    if e.ring[Slot(frame)].confirmed then e.ring[Slot(frame)].remote
    else if frame >= 1 then e.ring[Slot(frame - 1)].remote
    else 0
  }

  /** An input arrives for a frame kept in slot k. */
  function ConfirmAt<S>(e: Engine<S>, k: nat, frame: int, input: uint16): (r: Engine<S>)
    requires Shape(e) && k < FRAMES
    ensures Shape(r)
  {
    var held := e.ring[k];
    var late := !held.confirmed && held.remote != input && (e.diverge < 0 || frame < e.diverge);
    e.(ring := e.ring[k := held.(remote := input, confirmed := true)], diverge := if late then frame else e.diverge)
  }

  function Confirm<S>(e: Engine<S>, frame: nat, input: uint16): (r: Engine<S>)
    requires Shape(e)
    ensures Shape(r)
  {
    ConfirmAt(e, Slot(frame), frame, input)
  }

  /** The slot is not confirmed and holds another input than the one that arrives. */
  predicate Mismatch<S>(e: Engine<S>, frame: nat, input: uint16)
    requires Shape(e)
  {
    !e.ring[Slot(frame)].confirmed && e.ring[Slot(frame)].remote != input
  }

  /** The remainder of C's division, which truncates toward zero. */
  function TruncatedRemainder(a: int, n: int): int
    requires n > 0
  {
    if a >= 0 then a % n else -(-a % n)
  }

  /** The index the code computes for a frame lies in the ring. */
  predicate InRing(frame: int) {
    TruncatedRemainder(frame, FRAMES) >= 0
  }

  /** It does so exactly for the frames from 0 on and the negative multiples of 128. */
  lemma InRingExactly(frame: int)
    ensures InRing(frame) <==> frame >= 0 || frame % FRAMES == 0
    ensures InRing(frame) <==> 0 <= TruncatedRemainder(frame, FRAMES) < FRAMES
    ensures frame >= 0 ==> TruncatedRemainder(frame, FRAMES) == Slot(frame)
  {
    Opposite(frame);
  }

  lemma Opposite(a: int)
    ensures -a % FRAMES == 0 <==> a % FRAMES == 0
  {
    var q := a / FRAMES;
    assert -a == -q * FRAMES - a % FRAMES;
  }

  /** Of the frames that can arrive on the wire, for those below 2^31 and the multiples of 128. */
  lemma WireFrameInRingExactly(wire: uint32)
    ensures InRing(ToInt32(wire)) <==> wire < 0x8000_0000 || wire % FRAMES == 0
  {
    InRingExactly(ToInt32(wire));
    assert wire >= 0x8000_0000 ==> ToInt32(wire) == wire - 0x1_0000_0000 < 0;
    SameRemainder(wire);
  }

  lemma SameRemainder(n: int)
    ensures (n - 0x1_0000_0000) % FRAMES == n % FRAMES
  {
    var q := n / FRAMES;
    assert n - 0x1_0000_0000 == (q - 0x200_0000) * FRAMES + n % FRAMES;
  }

  /** A frame whose index lies in the ring. */
  type RingFrame = f: int | InRing(f)

  function RingIndex(f: RingFrame): (k: nat)
    ensures k < FRAMES && (f >= 0 ==> k == Slot(f))
  {
    InRingExactly(f);
    TruncatedRemainder(f, FRAMES)
  }

  /** An input arrives for a frame whose index lies in the ring. */
  function Arrive<S>(e: Engine<S>, f: RingFrame, input: uint16): (r: Engine<S>)
    requires Shape(e)
    ensures Shape(r) && (f >= 0 ==> r == Confirm(e, f, input))
  {
    ConfirmAt(e, RingIndex(f), f, input)
  }

  /** A negative frame that stays in the ring and meets another input clears a pending divergence:
      the mark it leaves is itself negative, which reads as none. */
  lemma NegativeConfirmClears<S>(e: Engine<S>, frame: int, input: uint16)
    requires Shape(e) && frame < 0 && InRing(frame)
    requires !e.ring[0].confirmed && e.ring[0].remote != input
    ensures TruncatedRemainder(frame, FRAMES) == 0 && ConfirmAt(e, 0, frame, input).diverge == frame
  {
    InRingExactly(frame);
    Opposite(frame);
  }

  /** Ticks frames from..to from s with the inputs the ring holds for them. */
  function Replay<S>(ring: seq<FrameEntry<S>>, s: S, from: nat, upTo: nat, tick: (S, uint16, uint16) -> S): S
    requires |ring| == FRAMES && from <= upTo
    decreases upTo
  {
    if from == upTo then s
    else tick(Replay(ring, s, from, upTo - 1, tick), ring[Slot(upTo - 1)].local, ring[Slot(upTo - 1)].remote)
  }

  /** The snapshot slot k holds after the frames from..to have been simulated again from s: the
      state after the last of those frames that shares the slot, if any. */
  function SnapshotAfter<S>(ring: seq<FrameEntry<S>>, s: S, from: nat, upTo: nat, tick: (S, uint16, uint16) -> S,
      k: nat): S
    requires |ring| == FRAMES && from <= upTo && k < FRAMES
    decreases upTo
  {
    if from == upTo then ring[k].snapshot
    else if Slot(upTo - 1) == k then Replay(ring, s, from, upTo, tick)
    else SnapshotAfter(ring, s, from, upTo - 1, tick, k)
  }

  /** Restore the divergence frame and simulate up to current again; a divergence that is not
      before current is only restored. */
  function Rewind<S>(e: Engine<S>, current: nat, tick: (S, uint16, uint16) -> S): (r: Engine<S>)
    requires Shape(e)
    ensures Shape(r)
  {
    if e.diverge < 0 then e
    else
      var d := e.diverge;
      var upTo := if current > d then current else d;
      var s := e.ring[Slot(d)].snapshot;
      Engine(
        seq(FRAMES, k requires 0 <= k < FRAMES => e.ring[k].(snapshot := SnapshotAfter(e.ring, s, d, upTo, tick, k))),
        -1,
        Replay(e.ring, s, d, upTo, tick))
  }

  // ----- The class -----

  class Rollback<S> {
    const tick: (S, uint16, uint16) -> S
    const buf: array<FrameEntry<S>>
    var diverge: int
    var sim: S                     // the simulation's own state

    ghost predicate Valid()
      reads this
    {
      buf.Length == FRAMES
    }

    ghost function Val(): (e: Engine<S>)
      requires Valid()
      reads this, buf
      ensures Shape(e)
    {
      Engine(buf[..], diverge, sim)
    }

    constructor (initial: S, step: (S, uint16, uint16) -> S)
      ensures Valid() && tick == step && fresh(buf)
      ensures Val() == Engine(seq(FRAMES, i => FrameEntry(initial, 0, 0, false)), -1, initial)
    {
      tick := step;
      buf := new FrameEntry<S>[FRAMES](i => FrameEntry(initial, 0, 0, false));
      diverge := -1;
      sim := initial;
    }

    method SaveFrame(frame: nat)
      requires Valid()
      modifies buf
      ensures Valid() && Val() == Save(old(Val()), frame)
    {
      var i := frame % FRAMES;
      buf[i] := buf[i].(snapshot := sim);
      buf[i] := buf[i].(local := 0);
      buf[i] := buf[i].(confirmed := false);
    }

    method RemoteFor(frame: nat) returns (input: uint16)
      requires Valid()
      ensures input == GetRemote(Val(), frame)
    {
      if buf[frame % FRAMES].confirmed {
        return buf[frame % FRAMES].remote;
      }
      var prev := frame - 1;
      if prev >= 0 {
        return buf[prev % FRAMES].remote;
      }
      input := 0;
    }

    /** A frame whose index would leave the ring is undefined in the source. */
    method ConfirmRemote(frame: RingFrame, input: uint16)
      requires Valid()
      modifies this`diverge, buf
      ensures Valid() && Val() == Arrive(old(Val()), frame, input)
    {
      InRingExactly(frame);
      var i := TruncatedRemainder(frame, FRAMES);
      if !buf[i].confirmed && buf[i].remote != input {
        if diverge < 0 || frame < diverge {
          diverge := frame;
        }
      }
      buf[i] := buf[i].(remote := input);
      buf[i] := buf[i].(confirmed := true);
    }

    method RewindAndResim(current: nat)
      requires Valid()
      modifies this`diverge, this`sim, buf
      ensures Valid() && Val() == Rewind(old(Val()), current, tick)
    {
      if diverge < 0 { return; }
      ghost var ring := buf[..];
      var d := diverge;
      sim := buf[d % FRAMES].snapshot;
      ghost var s := sim;
      var f := d;
      while f < current
        invariant d <= f && (f <= current || f == d)
        invariant sim == Replay(ring, s, d, f, tick)
        invariant forall k :: 0 <= k < FRAMES ==> buf[k] == ring[k].(snapshot := SnapshotAfter(ring, s, d, f, tick, k))
      {
        var i := f % FRAMES;
        sim := tick(sim, buf[i].local, buf[i].remote);
        buf[i] := buf[i].(snapshot := sim);
        f := f + 1;
      }
      diverge := -1;
    }
  }

  // ----- What a rewind achieves when its hypotheses hold -----

  /** A run from the state before frame `from` with given inputs per frame. */
  function CleanRun<S>(s: S, local: nat -> uint16, remote: nat -> uint16, from: nat, upTo: nat, tick: (S, uint16,
      uint16) -> S): S
    requires from <= upTo
    decreases upTo
  {
    if from == upTo then s
    else tick(CleanRun(s, local, remote, from, upTo - 1, tick), local(upTo - 1), remote(upTo - 1))
  }

  ghost predicate HoldsInputs<S>(ring: seq<FrameEntry<S>>, local: nat -> uint16, remote: nat -> uint16, from: nat,
      upTo: nat)
    requires |ring| == FRAMES
  {
    forall f: nat :: from <= f < upTo ==> ring[Slot(f)].local == local(f) && ring[Slot(f)].remote == remote(f)
  }

  lemma {:induction false} ReplayIsCleanRun<S>(ring: seq<FrameEntry<S>>, s: S, local: nat -> uint16,
      remote: nat -> uint16,
    from: nat, upTo: nat, tick: (S, uint16, uint16) -> S)
    requires |ring| == FRAMES && from <= upTo && HoldsInputs(ring, local, remote, from, upTo)
    ensures Replay(ring, s, from, upTo, tick) == CleanRun(s, local, remote, from, upTo, tick)
    decreases upTo
  {
    if from < upTo {
      ReplayIsCleanRun(ring, s, local, remote, from, upTo - 1, tick);
    }
  }

  lemma {:induction false} SnapshotOfFrame<S>(ring: seq<FrameEntry<S>>, s: S, from: nat, upTo: nat, tick: (S,
      uint16, uint16) -> S, f: nat)
    requires |ring| == FRAMES && from <= f < upTo <= f + FRAMES
    ensures SnapshotAfter(ring, s, from, upTo, tick, Slot(f)) == Replay(ring, s, from, f + 1, tick)
    decreases upTo
  {
    if f < upTo - 1 {
      assert Slot(upTo - 1) != Slot(f);
      SnapshotOfFrame(ring, s, from, upTo - 1, tick, f);
    }
  }

  lemma {:induction false} UntouchedSnapshot<S>(ring: seq<FrameEntry<S>>, s: S, from: nat, upTo: nat, tick: (S,
      uint16, uint16) -> S, k: nat)
    requires |ring| == FRAMES && from <= upTo && k < FRAMES
    requires forall f: nat :: from <= f < upTo ==> Slot(f) != k
    ensures SnapshotAfter(ring, s, from, upTo, tick, k) == ring[k].snapshot
    decreases upTo
  {
    if from < upTo {
      UntouchedSnapshot(ring, s, from, upTo - 1, tick, k);
    }
  }

  /** None of the frames from .. upTo - 1 is kept in slot k. */
  predicate Outside(k: nat, from: nat, upTo: nat)
    requires from <= upTo
  {
    forall f :: from <= f < upTo ==> Slot(f) != k
  }

  /** The slot of frame f after such a rewind. */
  lemma RewoundSlot<S>(e: Engine<S>, r: Engine<S>, before: S, local: nat -> uint16, remote: nat -> uint16, c: nat,
      tick: (S, uint16, uint16) -> S, f: nat)
    requires Shape(e) && 0 <= e.diverge <= f < c <= e.diverge + FRAMES && r == Rewind(e, c, tick)
    requires e.ring[Slot(e.diverge)].snapshot == before && HoldsInputs(e.ring, local, remote, e.diverge, c)
    ensures r.ring[Slot(f)].snapshot == CleanRun(before, local, remote, e.diverge, f + 1, tick)
  {
    SnapshotOfFrame(e.ring, before, e.diverge, c, tick, f);
    ReplayIsCleanRun(e.ring, before, local, remote, e.diverge, f + 1, tick);
  }

  lemma RewoundElsewhere<S>(e: Engine<S>, r: Engine<S>, c: nat, tick: (S, uint16, uint16) -> S, k: nat)
    requires Shape(e) && 0 <= e.diverge <= c && r == Rewind(e, c, tick) && k < FRAMES
    ensures Outside(k, e.diverge, c) ==> r.ring[k].snapshot == e.ring[k].snapshot
    ensures r.ring[k] == e.ring[k].(snapshot := r.ring[k].snapshot)
  {
    if Outside(k, e.diverge, c) {
      UntouchedSnapshot(e.ring, e.ring[Slot(e.diverge)].snapshot, e.diverge, c, tick, k);
    }
  }

  /** If the slot of the divergence frame d holds the state before frame d, the slots of d .. c-1
      hold the corrected inputs, and the window is at most the ring, then rewinding leaves exactly
      the state of a clean run with those inputs; slot f then holds the state after frame f, every
      other slot keeps its snapshot, and no stored input changes. */
  lemma RewindGivesCleanRun<S>(e: Engine<S>, before: S, local: nat -> uint16, remote: nat -> uint16,
    c: nat, tick: (S, uint16, uint16) -> S)
    requires Shape(e) && 0 <= e.diverge <= c <= e.diverge + FRAMES
    requires e.ring[Slot(e.diverge)].snapshot == before && HoldsInputs(e.ring, local, remote, e.diverge, c)
    ensures var d, r := e.diverge, Rewind(e, c, tick);
            && r.sim == CleanRun(before, local, remote, d, c, tick) && r.diverge == -1
            && (forall f: nat :: d <= f < c ==>
                  r.ring[Slot(f)].snapshot == CleanRun(before, local, remote, d, f + 1, tick))
            && (forall k: nat :: k < FRAMES && Outside(k, d, c) ==> r.ring[k].snapshot == e.ring[k].snapshot)
            && (forall k: nat :: k < FRAMES ==> r.ring[k] == e.ring[k].(snapshot := r.ring[k].snapshot))
  {
    var d, r := e.diverge, Rewind(e, c, tick);
    ReplayIsCleanRun(e.ring, before, local, remote, d, c, tick);
    forall f: nat | d <= f < c
      ensures r.ring[Slot(f)].snapshot == CleanRun(before, local, remote, d, f + 1, tick)
    {
      RewoundSlot(e, r, before, local, remote, c, tick, f);
    }
    forall k: nat | k < FRAMES
      ensures Outside(k, d, c) ==> r.ring[k].snapshot == e.ring[k].snapshot
      ensures r.ring[k] == e.ring[k].(snapshot := r.ring[k].snapshot)
    {
      RewoundElsewhere(e, r, c, tick, k);
    }
  }

  /** A divergence that is not before the current frame is not replayed: the simulation goes back to
      whatever its slot holds, the state after a frame at least one ring earlier. */
  lemma RewindToAFrameNotSimulated<S>(e: Engine<S>, c: nat, tick: (S, uint16, uint16) -> S)
    requires Shape(e) && 0 <= c <= e.diverge
    ensures Rewind(e, c, tick) == Engine(e.ring, -1, e.ring[Slot(e.diverge)].snapshot)
  {
    assert Rewind(e, c, tick).ring == e.ring;
  }

  // ----- Prediction -----

  /** A prediction is meant to repeat the last confirmed input, but it looks back one frame only:
      a confirmed input is predicted for the next frame if that is unconfirmed, and changes the
      prediction of no other frame within the ring. */
  lemma PredictionLooksBackOneFrame<S>(e: Engine<S>, f: nat, input: uint16, g: nat)
    requires Shape(e) && f < g < f + FRAMES
    ensures GetRemote(Confirm(e, f, input), g)
         == if g == f + 1 && !e.ring[Slot(g)].confirmed then input else GetRemote(e, g)
  {
    SlotsDiffer(f, g, f);
    if g > f + 1 {
      SlotsDiffer(f, g - 1, f);
    }
  }

  // ----- The divergence frame over any run -----

  /** The simulation moves on between operations; a save records where it is. */
  datatype Op<S> = SaveOp(frame: nat, state: S) | ConfirmOp(frame: nat, input: uint16) | RewindOp(current: nat)

  function Apply<S>(e: Engine<S>, op: Op<S>, tick: (S, uint16, uint16) -> S): (r: Engine<S>)
    requires Shape(e)
    ensures Shape(r)
  {
    match op
    case SaveOp(f, s) => Save(e.(sim := s), f)
    case ConfirmOp(f, input) => Confirm(e, f, input)
    case RewindOp(c) => Rewind(e, c, tick)
  }

  function ApplyAll<S>(e: Engine<S>, ops: seq<Op<S>>, tick: (S, uint16, uint16) -> S): (r: Engine<S>)
    requires Shape(e)
    ensures Shape(r)
    decreases |ops|
  {
    if ops == [] then e else Apply(ApplyAll(e, ops[..|ops| - 1], tick), ops[|ops| - 1], tick)
  }

  /** The frames, since the last rewind, of confirmations that met an unconfirmed slot holding a
      different input. */
  function Mismatches<S>(e: Engine<S>, ops: seq<Op<S>>, tick: (S, uint16, uint16) -> S): seq<nat>
    requires Shape(e)
    decreases |ops|
  {
    if ops == [] then []
    else
      var before := Mismatches(e, ops[..|ops| - 1], tick);
      match ops[|ops| - 1]
      case SaveOp(_, _) => before
      case ConfirmOp(f, input) =>
        if Mismatch(ApplyAll(e, ops[..|ops| - 1], tick), f, input) then before + [f] else before
      case RewindOp(_) => []
  }

  ghost predicate IsLeast(d: int, frames: seq<nat>) {
    if frames == [] then d == -1 else d in frames && forall f :: f in frames ==> d <= f
  }

  /** Over any interleaving of saves, confirmations and rewinds the divergence frame is the least
      mismatched frame since the last rewind, and -1 when there is none. */
  lemma {:induction false} DivergeIsLeastMismatch<S>(e: Engine<S>, ops: seq<Op<S>>, tick: (S, uint16, uint16) -> S)
    requires Shape(e) && e.diverge == -1
    ensures IsLeast(ApplyAll(e, ops, tick).diverge, Mismatches(e, ops, tick))
    decreases |ops|
  {
    if ops != [] {
      DivergeIsLeastMismatch(e, ops[..|ops| - 1], tick);
    }
  }

  // ----- The ring as a window on an unbounded table -----

  /** An engine with one entry per frame. Frames not written yet hold `blank`. */
  datatype Table<S> = Table(at: map<nat, FrameEntry<S>>, blank: FrameEntry<S>, diverge: int, sim: S)

  function Look<S>(t: Table<S>, frame: nat): FrameEntry<S> {
    if frame in t.at then t.at[frame] else t.blank
  }

  function TReplay<S>(t: Table<S>, s: S, from: nat, upTo: nat, tick: (S, uint16, uint16) -> S): S
    requires from <= upTo
    decreases upTo
  {
    if from == upTo then s
    else tick(TReplay(t, s, from, upTo - 1, tick), Look(t, upTo - 1).local, Look(t, upTo - 1).remote)
  }

  function TApply<S>(t: Table<S>, op: Op<S>, tick: (S, uint16, uint16) -> S): Table<S> {
    match op
    case SaveOp(f, s) => t.(sim := s, at := t.at[f := Look(t, f).(snapshot := s, local := 0, confirmed := false)])
    case ConfirmOp(f, input) =>
      var held := Look(t, f);
      var late := !held.confirmed && held.remote != input && (t.diverge < 0 || f < t.diverge);
      t.(at := t.at[f := held.(remote := input, confirmed := true)], diverge := if late then f else t.diverge)
    case RewindOp(c) =>
      if t.diverge < 0 then t
      else
        var d := t.diverge;
        var upTo := if c > d then c else d;
        var s := Look(t, d).snapshot;
        var again := map f: nat | d <= f < upTo :: Look(t, f).(snapshot := TReplay(t, s, d, f + 1, tick));
        t.(at := t.at + again, diverge := -1, sim := TReplay(t, s, d, upTo, tick))
  }

  /** Every frame of the window w .. w + 127 has the same entry in the ring and in the table. */
  ghost predicate Agree<S>(e: Engine<S>, t: Table<S>, w: nat)
    requires Shape(e)
  {
    && e.diverge == t.diverge && e.sim == t.sim
    && (e.diverge < 0 || w <= e.diverge < w + FRAMES)
    && (forall f: nat :: w <= f < w + FRAMES ==> e.ring[Slot(f)] == Look(t, f))
  }

  predicate InWindow<S>(op: Op<S>, w: nat) {
    match op
    case SaveOp(f, _) => w <= f < w + FRAMES
    case ConfirmOp(f, _) => w <= f < w + FRAMES
    case RewindOp(c) => c <= w + FRAMES
  }

  lemma SlotsDiffer(f: nat, g: nat, w: nat)
    requires w <= f < w + FRAMES && w <= g < w + FRAMES && f != g
    ensures Slot(f) != Slot(g)
  {
  }

  lemma {:induction false} ReplaysAgree<S>(e: Engine<S>, t: Table<S>, w: nat, s: S, from: nat, upTo: nat, tick: (S,
      uint16, uint16) -> S)
    requires Shape(e) && Agree(e, t, w) && w <= from <= upTo <= w + FRAMES
    ensures Replay(e.ring, s, from, upTo, tick) == TReplay(t, s, from, upTo, tick)
    decreases upTo
  {
    if from < upTo {
      ReplaysAgree(e, t, w, s, from, upTo - 1, tick);
      assert e.ring[Slot(upTo - 1)] == Look(t, upTo - 1);
    }
  }

  lemma WriteAgrees<S>(e: Engine<S>, e': Engine<S>, t: Table<S>, t': Table<S>, w: nat, f: nat, entry: FrameEntry<S>)
    requires Shape(e) && Shape(e') && Agree(e, t, w) && w <= f < w + FRAMES
    requires e'.ring == e.ring[Slot(f) := entry] && t'.at == t.at[f := entry] && t'.blank == t.blank
    requires e'.diverge == t'.diverge && e'.sim == t'.sim && (e'.diverge < 0 || w <= e'.diverge < w + FRAMES)
    ensures Agree(e', t', w)
  {
    forall g: nat | w <= g < w + FRAMES
      ensures e'.ring[Slot(g)] == Look(t', g)
    {
      if g != f {
        SlotsDiffer(f, g, w);
      }
    }
  }

  /** The entry of frame g after a rewind, in the ring and in the table. */
  lemma RewoundEntry<S>(e: Engine<S>, t: Table<S>, w: nat, d: nat, upTo: nat, s: S, tick: (S, uint16, uint16) -> S,
      g: nat)
    requires Shape(e) && Agree(e, t, w) && w <= d <= upTo <= w + FRAMES && w <= g < w + FRAMES
    ensures SnapshotAfter(e.ring, s, d, upTo, tick, Slot(g))
         == if d <= g < upTo then TReplay(t, s, d, g + 1, tick) else Look(t, g).snapshot
  {
    assert e.ring[Slot(g)] == Look(t, g);
    if d <= g < upTo {
      SnapshotOfFrame(e.ring, s, d, upTo, tick, g);
      ReplaysAgree(e, t, w, s, d, g + 1, tick);
    } else {
      forall f: nat | d <= f < upTo
        ensures Slot(f) != Slot(g)
      {
        SlotsDiffer(f, g, w);
      }
      UntouchedSnapshot(e.ring, s, d, upTo, tick, Slot(g));
    }
  }

  lemma RewindAgrees<S>(e: Engine<S>, t: Table<S>, w: nat, c: nat, tick: (S, uint16, uint16) -> S)
    requires Shape(e) && Agree(e, t, w) && c <= w + FRAMES && e.diverge >= 0
    ensures Agree(Rewind(e, c, tick), TApply(t, RewindOp(c), tick), w)
  {
    var d := e.diverge;
    var upTo := if c > d then c else d;
    var s := e.ring[Slot(d)].snapshot;
    var e', t' := Rewind(e, c, tick), TApply(t, RewindOp(c), tick);
    assert s == Look(t, d).snapshot;
    ReplaysAgree(e, t, w, s, d, upTo, tick);
    forall g: nat | w <= g < w + FRAMES
      ensures e'.ring[Slot(g)] == Look(t', g)
    {
      RewoundEntry(e, t, w, d, upTo, s, tick, g);
      RewoundLook(t, d, c, tick, g);
    }
  }

  lemma RewoundLook<S>(t: Table<S>, d: nat, c: nat, tick: (S, uint16, uint16) -> S, g: nat)
    requires t.diverge == d
    ensures var s, upTo := Look(t, d).snapshot, if c > d then c else d;
            Look(TApply(t, RewindOp(c), tick), g)
            == if d <= g < upTo then Look(t, g).(snapshot := TReplay(t, s, d, g + 1, tick)) else Look(t, g)
  {
  }

  /** As long as all frames lie in one window of 128, the ring behaves as the unbounded table:
      same entries, same divergence, same simulation state after every operation. */
  lemma WindowAgrees<S>(e: Engine<S>, t: Table<S>, w: nat, op: Op<S>, tick: (S, uint16, uint16) -> S)
    requires Shape(e) && Agree(e, t, w) && InWindow(op, w)
    ensures Agree(Apply(e, op, tick), TApply(t, op, tick), w)
  {
    match op
    case SaveOp(f, s) =>
      assert e.ring[Slot(f)] == Look(t, f);
      WriteAgrees(e, Apply(e, op, tick), t, TApply(t, op, tick), w, f, Look(t, f).(snapshot := s, local := 0,
          confirmed := false));
    case ConfirmOp(f, input) =>
      assert e.ring[Slot(f)] == Look(t, f);
      WriteAgrees(e, Apply(e, op, tick), t, TApply(t, op, tick), w, f, Look(t, f).(remote := input, confirmed := true));
    case RewindOp(c) =>
      if e.diverge >= 0 {
        RewindAgrees(e, t, w, c, tick);
      }
  }

  function TApplyAll<S>(t: Table<S>, ops: seq<Op<S>>, tick: (S, uint16, uint16) -> S): Table<S>
    decreases |ops|
  {
    if ops == [] then t else TApply(TApplyAll(t, ops[..|ops| - 1], tick), ops[|ops| - 1], tick)
  }

  /** The same for any number of operations. */
  lemma {:induction false} WindowRunAgrees<S>(e: Engine<S>, t: Table<S>, w: nat, ops: seq<Op<S>>, tick: (S, uint16,
      uint16) -> S)
    requires Shape(e) && Agree(e, t, w) && forall i :: 0 <= i < |ops| ==> InWindow(ops[i], w)
    ensures Agree(ApplyAll(e, ops, tick), TApplyAll(t, ops, tick), w)
    decreases |ops|
  {
    if ops != [] {
      WindowRunAgrees(e, t, w, ops[..|ops| - 1], tick);
      WindowAgrees(ApplyAll(e, ops[..|ops| - 1], tick), TApplyAll(t, ops[..|ops| - 1], tick), w, ops[|ops| - 1], tick);
    }
  }

  /** Past one window it does not: the input confirmed 128 frames earlier is still in the slot, so
      its repetition is no divergence on the ring, though nothing was known of that frame. */
  lemma BeyondTheWindow(tick: (int, uint16, uint16) -> int)
    ensures var blank := FrameEntry(0, 0, 0, false);
            var e0 := Engine(seq(FRAMES, i => blank), -1, 0);
            var t0 := Table(map[], blank, -1, 0);
            var ops := [ConfirmOp(0, 5), RewindOp(0), SaveOp(128, 0), ConfirmOp(128, 5)];
            var e := Apply(Apply(Apply(Apply(e0, ops[0], tick), ops[1], tick), ops[2], tick), ops[3], tick);
            var t := TApply(TApply(TApply(TApply(t0, ops[0], tick), ops[1], tick), ops[2], tick), ops[3], tick);
            Agree(e0, t0, 0) && e.diverge == -1 && t.diverge == 128
  {
  }
}
