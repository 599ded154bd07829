/** Motion commands: a ring of the last 30 directions and a greedy backward search in it. */
module SpecialMoves {
  import opened Bytes

  const DEPTH: nat := 30

  /** Directions in numpad notation; 5 is neutral. */
  type Direction = d: int | 1 <= d <= 9 witness 5

  datatype MotionCmd = NoMotion | QCF | QCB | DP | RDP | ChargeF

  /** Raw input bits and facing to a numpad direction. */
  function ToNumpad(input: uint16, facing: int): Direction {
    var up, down := Bit(input, 0), Bit(input, 1);
    var back := if facing > 0 then Bit(input, 2) else Bit(input, 3);
    var fwd := if facing > 0 then Bit(input, 3) else Bit(input, 2);
    if down && fwd then 3
    else if down && back then 1
    else if up && fwd then 9
    else if up && back then 7
    else if down then 2
    else if up then 8
    else if fwd then 6
    else if back then 4
    else 5
  }

  // ----- What a motion is -----

  /** The direction k pushes ago, counting from 0; neutral before the first. */
  function Ago(h: seq<Direction>, k: nat): Direction {
    if k < |h| then h[|h| - 1 - k] else 5
  }

  /** pat occurs, in order but not necessarily adjacent, among the last `window` pushes, at the
      given increasing distances: at[j] is how long ago pat[|pat| - 1 - j] was pushed. */
  ghost predicate OccursAt(h: seq<Direction>, pat: seq<Direction>, window: nat, at: seq<nat>) {
    && |at| == |pat|
    && (forall j :: 0 <= j < |at| ==> at[j] < window && Ago(h, at[j]) == pat[|pat| - 1 - j])
    && (forall i, j :: 0 <= i < j < |at| ==> at[i] < at[j])
  }

  ghost predicate Occurs(h: seq<Direction>, pat: seq<Direction>, window: nat) {
    exists at :: OccursAt(h, pat, window, at)
  }

  // ----- Greedy matching -----

  /** How many directions of pat, from its end, are matched after looking i pushes back. */
  function Matched(h: seq<Direction>, pat: seq<Direction>, i: nat): (m: nat)
    ensures m <= |pat| && m <= i
  {
    if i == 0 then 0
    else
      var m := Matched(h, pat, i - 1);
      if m < |pat| && Ago(h, i - 1) == pat[|pat| - 1 - m] then m + 1 else m
  }

  /** Greedy matching finds an occurrence of what it has matched. */
  lemma {:induction false} GreedySound(h: seq<Direction>, pat: seq<Direction>, i: nat) returns (at: seq<nat>)
    ensures |at| == Matched(h, pat, i)
    ensures forall j :: 0 <= j < |at| ==> at[j] < i && Ago(h, at[j]) == pat[|pat| - 1 - j]
    ensures forall k, j :: 0 <= k < j < |at| ==> at[k] < at[j]
    decreases i
  {
    if i == 0 {
      at := [];
    } else {
      at := GreedySound(h, pat, i - 1);
      if Matched(h, pat, i) > |at| {
        at := at + [i - 1];
      }
    }
  }

  /** Greedy matching is never behind: if the last n directions of pat occur within i pushes,
      at least n are matched. */
  lemma {:induction false} GreedyComplete(h: seq<Direction>, pat: seq<Direction>, at: seq<nat>, n: nat, i: nat)
    requires n <= |pat| && n <= |at|
    requires forall j :: 0 <= j < n ==> at[j] < i && Ago(h, at[j]) == pat[|pat| - 1 - j]
    requires forall k, j :: 0 <= k < j < n ==> at[k] < at[j]
    ensures Matched(h, pat, i) >= n
    decreases i
  {
    if n > 0 {
      if at[n - 1] < i - 1 {
        GreedyComplete(h, pat, at, n, i - 1);
      } else {
        GreedyComplete(h, pat, at, n - 1, i - 1);
      }
    }
  }

  /** The greedy backward search succeeds exactly when the pattern is a subsequence of the last
      `window` directions of the unbounded, neutral-padded history. */
  lemma GreedyExactly(h: seq<Direction>, pat: seq<Direction>, window: nat)
    ensures Matched(h, pat, window) == |pat| <==> Occurs(h, pat, window)
  {
    if Matched(h, pat, window) == |pat| {
      var at := GreedySound(h, pat, window);
      assert OccursAt(h, pat, window, at);
    }
    if Occurs(h, pat, window) {
      var at :| OccursAt(h, pat, window, at);
      GreedyComplete(h, pat, at, |pat|, window);
    }
  }

  // ----- The detector -----

  /** Number of pushes since the last one that was not held back. */
  function HeldBack(h: seq<Direction>): nat {
    if h == [] || h[|h| - 1] !in {4, 1, 7} then 0 else HeldBack(h[..|h| - 1]) + 1
  }

  function HeldDown(h: seq<Direction>): nat {
    if h == [] || h[|h| - 1] !in {2, 1, 3} then 0 else HeldDown(h[..|h| - 1]) + 1
  }

  lemma HeldMore(h: seq<Direction>, d: Direction)
    ensures HeldBack(h + [d]) == if d == 4 || d == 1 || d == 7 then HeldBack(h) + 1 else 0
    ensures HeldDown(h + [d]) == if d == 2 || d == 1 || d == 3 then HeldDown(h) + 1 else 0
  {
    assert (h + [d])[..|h|] == h;
  }

  /** The command the detector should report for a history. */
  ghost function Command(h: seq<Direction>): MotionCmd {
    if Occurs(h, [2, 3, 6], 12) then QCF
    else if Occurs(h, [6, 2, 3], 15) then DP
    else if Occurs(h, [2, 1, 4], 12) then QCB
    else if Occurs(h, [4, 2, 1], 15) then RDP
    else if Ago(h, 0) !in {4, 1, 7} && Ago(h, 1) == 6 then ChargeF
    else NoMotion
  }

  /** Going back from the head, the ring holds the last 30 directions of the history. */
  ghost predicate RingHolds(ring: seq<Direction>, head: nat, h: seq<Direction>)
    requires |ring| == DEPTH && head < DEPTH
  {
    forall k :: 0 <= k < DEPTH ==> ring[(head + DEPTH - 1 - k) % DEPTH] == Ago(h, k)
  }

  lemma PushKeepsRing(ring: seq<Direction>, head: nat, h: seq<Direction>, d: Direction)
    requires |ring| == DEPTH && head < DEPTH && RingHolds(ring, head, h)
    ensures RingHolds(ring[head := d], (head + 1) % DEPTH, h + [d])
  {
    var ring', head' := ring[head := d], (head + 1) % DEPTH;
    forall k | 0 <= k < DEPTH
      ensures ring'[(head' + DEPTH - 1 - k) % DEPTH] == Ago(h + [d], k)
    {
      if k == 0 {
        RingLast(head);
      } else {
        RingStep(head, k);
        assert Ago(h + [d], k) == Ago(h, k - 1);
        assert ring[(head + DEPTH - 1 - (k - 1)) % DEPTH] == Ago(h, k - 1);
      }
    }
  }

  class MotionDetector {
    const dirHistory: array<Direction>
    var head: nat
    var chargeLeftFrames: nat
    var chargeDownFrames: nat
    ghost var history: seq<Direction>      // every direction ever pushed

    /** The ring holds the last 30 directions of the history, neutral before its start. */
    ghost predicate Valid()
      reads this, dirHistory
    {
      && dirHistory.Length == DEPTH && head < DEPTH
      && RingHolds(dirHistory[..], head, history)
      && chargeLeftFrames == HeldBack(history)
      && chargeDownFrames == HeldDown(history)
    }

    constructor ()
      ensures Valid() && history == [] && fresh(dirHistory)
    {
      dirHistory := new Direction[DEPTH](_ => 5);
      head, chargeLeftFrames, chargeDownFrames := 0, 0, 0;
      history := [];
    }

    method Push(input: uint16, facing: int)
      requires Valid()
      modifies this, dirHistory
      ensures Valid() && history == old(history) + [ToNumpad(input, facing)]
    {
      var np := ToNumpad(input, facing);
      PushDirection(np);
    }

    method PushDirection(np: Direction)
      requires Valid()
      modifies this, dirHistory
      ensures Valid() && history == old(history) + [np]
    {
      PushKeepsRing(dirHistory[..], head, history, np);
      HeldMore(history, np);
      dirHistory[head] := np;
      head := (head + 1) % DEPTH;
      chargeLeftFrames := if np == 4 || np == 1 || np == 7 then chargeLeftFrames + 1 else 0;
      chargeDownFrames := if np == 2 || np == 1 || np == 3 then chargeDownFrames + 1 else 0;
      history := history + [np];
      assert dirHistory[..] == old(dirHistory[..])[old(head) := np];
    }

    /** The backward search over the ring. */
    method FindSequence(pat: seq<Direction>, window: nat) returns (found: bool)
      requires Valid() && window <= DEPTH
      ensures found <==> Occurs(history, pat, window)
    {
      var matched, i := 0, 0;
      while i < window && matched < |pat|
        invariant 0 <= i <= window && matched <= |pat|
        invariant matched == Matched(history, pat, i)
      {
        var idx := (head + DEPTH - 1 - i) % DEPTH;
        assert dirHistory[..][idx] == Ago(history, i);
        if dirHistory[idx] == pat[|pat| - 1 - matched] {
          matched := matched + 1;
        }
        i := i + 1;
      }
      MatchedStays(history, pat, i, window);
      GreedyExactly(history, pat, window);
      found := matched == |pat|;
    }

    method Check() returns (cmd: MotionCmd)
      requires Valid()
      ensures cmd == Command(history)
    {
      var b := FindSequence([2, 3, 6], 12);
      if b { return QCF; }
      b := FindSequence([6, 2, 3], 15);
      if b { return DP; }
      b := FindSequence([2, 1, 4], 12);
      if b { return QCB; }
      b := FindSequence([4, 2, 1], 15);
      if b { return RDP; }
      if chargeLeftFrames == 0 {
        var prev := (head + DEPTH - 2) % DEPTH;
        assert dirHistory[..][prev] == Ago(history, 1);
        if dirHistory[prev] == 6 { return ChargeF; }
      }
      cmd := NoMotion;
    }
  }

  lemma RingLast(head: nat)
    requires head < DEPTH
    ensures ((head + 1) % DEPTH + DEPTH - 1) % DEPTH == head
  {
  }

  lemma RingStep(head: nat, k: nat)
    requires head < DEPTH && 0 < k < DEPTH
    ensures ((head + 1) % DEPTH + DEPTH - 1 - k) % DEPTH == (head + DEPTH - 1 - (k - 1)) % DEPTH
    ensures ((head + 1) % DEPTH + DEPTH - 1 - k) % DEPTH != head
  {
  }

  /** Once the whole pattern is matched, looking further back keeps it so. */
  lemma {:induction false} MatchedStays(h: seq<Direction>, pat: seq<Direction>, i: nat, window: nat)
    requires i <= window && (i == window || Matched(h, pat, i) == |pat|)
    ensures Matched(h, pat, window) == Matched(h, pat, i)
    decreases window - i
  {
    if i < window {
      MatchedStays(h, pat, i + 1, window);
    }
  }

  /** An occurrence stays one, for one more push of anything, in a window one longer. */
  lemma OccurrenceAges(h: seq<Direction>, pat: seq<Direction>, window: nat, d: Direction)
    requires Occurs(h, pat, window)
    ensures Occurs(h + [d], pat, window + 1)
  {
    var at :| OccursAt(h, pat, window, at);
    var later := seq(|at|, j requires 0 <= j < |at| => at[j] + 1);
    assert OccursAt(h + [d], pat, window + 1, later);
  }

  /** The charge command is documented to need 40 frames held back; as written it needs none:
      forward then neutral is reported as a charge. */
  lemma ChargeWithoutHolding(h: seq<Direction>)
    requires h == [6, 5]
    ensures Command(h) == ChargeF && HeldBack(h) == 0 && HeldBack(h[..1]) == 0
  {
    assert forall k: nat :: Ago(h, k) != 2;
    NeedsDown(h, [2, 3, 6], 2, 12);
    NeedsDown(h, [6, 2, 3], 1, 15);
    NeedsDown(h, [2, 1, 4], 2, 12);
    NeedsDown(h, [4, 2, 1], 1, 15);
  }

  ghost predicate SameRecent(h: seq<Direction>, g: seq<Direction>, n: nat) {
    forall k: nat :: k < n ==> Ago(h, k) == Ago(g, k)
  }

  lemma OccursInRecent(h: seq<Direction>, g: seq<Direction>, pat: seq<Direction>, window: nat)
    requires SameRecent(h, g, window) && Occurs(h, pat, window)
    ensures Occurs(g, pat, window)
  {
    var at :| OccursAt(h, pat, window, at);
    assert OccursAt(g, pat, window, at);
  }

  lemma OccursExactlyInRecent(h: seq<Direction>, g: seq<Direction>, pat: seq<Direction>, window: nat)
    requires SameRecent(h, g, window)
    ensures Occurs(h, pat, window) <==> Occurs(g, pat, window)
  {
    if Occurs(h, pat, window) {
      OccursInRecent(h, g, pat, window);
    } else if Occurs(g, pat, window) {
      OccursInRecent(g, h, pat, window);
    }
  }

  /** No hold of 40 frames can matter: histories that agree on the last 15 directions are
      reported as the same command. */
  lemma CommandForgets(h: seq<Direction>, g: seq<Direction>)
    requires SameRecent(h, g, 15)
    ensures Command(h) == Command(g)
  {
    OccursExactlyInRecent(h, g, [2, 3, 6], 12);
    OccursExactlyInRecent(h, g, [6, 2, 3], 15);
    OccursExactlyInRecent(h, g, [2, 1, 4], 12);
    OccursExactlyInRecent(h, g, [4, 2, 1], 15);
  }

  lemma NeedsDown(h: seq<Direction>, pat: seq<Direction>, j: nat, window: nat)
    requires j < |pat| && pat[|pat| - 1 - j] == 2 && forall k: nat :: Ago(h, k) != 2
    ensures !Occurs(h, pat, window)
  {
    forall at: seq<nat>
      ensures !OccursAt(h, pat, window, at)
    {
      assert |at| == |pat| ==> Ago(h, at[j]) != 2;
    }
  }
}
