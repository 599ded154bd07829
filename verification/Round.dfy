/** Rounds of a match: timer, knock-outs and the end of the match. */
module Round {

  const ROUND_FRAMES: nat := 5940      // 99 seconds at 60 ticks
  const ROUNDS_TO_WIN: nat := 2

  datatype RoundVal = RoundVal(p1Won: nat, p2Won: nat, timer: int, number: nat, over: bool, matchOver: bool,
      winner: int)

  const FIRST := RoundVal(0, 0, ROUND_FRAMES, 1, false, false, -1)

  /** Who takes a round that ends with these health values: 0, 1, or both (-1). */
  function Winner(hp1: int, hp2: int): int {
    if hp1 <= 0 && hp2 <= 0 then -1
    else if hp2 <= 0 || hp1 > hp2 then 0
    else 1
  }

  function Tick(r: RoundVal, hp1: int, hp2: int): RoundVal {
    if r.over then r
    else
      var timer := r.timer - 1;
      if hp1 > 0 && hp2 > 0 && timer > 0 then r.(timer := timer)
      else
        var w := Winner(hp1, hp2);
        var p1 := r.p1Won + (if w != 1 then 1 else 0);
        var p2 := r.p2Won + (if w != 0 then 1 else 0);
        r.(timer := timer, over := true, winner := w, p1Won := p1, p2Won := p2,
           matchOver := r.matchOver || p1 >= ROUNDS_TO_WIN || p2 >= ROUNDS_TO_WIN)
  }

  function StartNext(r: RoundVal): RoundVal {
    r.(over := false, winner := -1, timer := ROUND_FRAMES, number := r.number + 1)
  }

  class RoundState {
    var p1RoundsWon: nat
    var p2RoundsWon: nat
    var frameTimer: int
    var roundNumber: nat
    var roundOver: bool
    var matchOver: bool
    var winnerSlot: int

    function Val(): RoundVal
      reads this
    {
      RoundVal(p1RoundsWon, p2RoundsWon, frameTimer, roundNumber, roundOver, matchOver, winnerSlot)
    }

    constructor ()
      ensures Val() == FIRST
    {
      p1RoundsWon, p2RoundsWon, roundOver, matchOver := 0, 0, false, false;
      frameTimer := ROUND_FRAMES;
      roundNumber := 1;
      winnerSlot := -1;
    }

    method TickOnce(hp1: int, hp2: int)
      modifies this
      ensures Val() == Tick(old(Val()), hp1, hp2)
    {
      if roundOver { return; }
      frameTimer := frameTimer - 1;
      var ko1, ko2 := hp1 <= 0, hp2 <= 0;
      if ko1 || ko2 || frameTimer <= 0 {
        roundOver := true;
        if ko1 && ko2 {
          winnerSlot := -1;
          p1RoundsWon := p1RoundsWon + 1;
          p2RoundsWon := p2RoundsWon + 1;
        } else if ko2 || hp1 > hp2 {
          winnerSlot := 0;
          p1RoundsWon := p1RoundsWon + 1;
        } else {
          winnerSlot := 1;
          p2RoundsWon := p2RoundsWon + 1;
        }
        if p1RoundsWon >= ROUNDS_TO_WIN || p2RoundsWon >= ROUNDS_TO_WIN {
          matchOver := true;
        }
      }
    }

    method NextRound()
      modifies this
      ensures Val() == StartNext(old(Val()))
    {
      roundOver := false;
      winnerSlot := -1;
      frameTimer := ROUND_FRAMES;
      roundNumber := roundNumber + 1;
    }
  }

  // ----- Which callers can end a match -----

  /** What a caller can do with a round state. */
  datatype Call = Ticks | Restarts

  /** The calls one after the other; hp(n) are the health values of call n, if it is a tick. */
  function AfterCalls(calls: seq<Call>, hp: nat -> (int, int)): RoundVal {
    if calls == [] then FIRST
    else
      var n := |calls| - 1;
      var r := AfterCalls(calls[..n], hp);
      match calls[n] case Ticks => Tick(r, hp(n).0, hp(n).1) case Restarts => StartNext(r)
  }

  ghost predicate CanEnd(calls: seq<Call>) {
    exists hp: nat -> (int, int) :: AfterCalls(calls, hp).matchOver
  }

  ghost predicate TickThenRestart(calls: seq<Call>) {
    exists j :: 0 <= j < |calls| && calls[j] == Restarts && Ticks in calls[..j]
  }

  /** A tick, later a restart, and later another tick. */
  ghost predicate TicksAroundARestart(calls: seq<Call>) {
    exists k :: 0 <= k < |calls| && calls[k] == Ticks && TickThenRestart(calls[..k])
  }

  /** How much of tick, restart, tick has been seen. */
  function Stage(calls: seq<Call>): (s: nat)
    ensures s <= 3
  {
    if calls == [] then 0
    else
      var s := Stage(calls[..|calls| - 1]);
      if s < 3 && calls[|calls| - 1] == (if s == 1 then Restarts else Ticks) then s + 1 else s
  }

  lemma {:induction false} StageFinds(calls: seq<Call>)
    ensures Stage(calls) >= 1 <==> Ticks in calls
    ensures Stage(calls) >= 2 <==> TickThenRestart(calls)
    ensures Stage(calls) == 3 <==> TicksAroundARestart(calls)
  {
    if calls != [] {
      var n := |calls| - 1;
      var before := calls[..n];
      StageFinds(before);
      assert forall i :: 0 <= i < n ==> before[i] == calls[i];
      PairsGrow(calls);
      TriplesGrow(calls);
    }
  }

  lemma PairsGrow(calls: seq<Call>)
    requires calls != []
    ensures var n := |calls| - 1;
            TickThenRestart(calls) <==> TickThenRestart(calls[..n]) || (Ticks in calls[..n] && calls[n] == Restarts)
  {
    var n := |calls| - 1;
    assert forall j :: 0 <= j < n ==> calls[..n][j] == calls[j] && calls[..n][..j] == calls[..j];
  }

  lemma TriplesGrow(calls: seq<Call>)
    requires calls != []
    ensures var n := |calls| - 1;
            TicksAroundARestart(calls) <==>
            TicksAroundARestart(calls[..n]) || (TickThenRestart(calls[..n]) && calls[n] == Ticks)
  {
    var n := |calls| - 1;
    assert forall j :: 0 <= j < n ==> calls[..n][j] == calls[j] && calls[..n][..j] == calls[..j];
  }

  /** Before the last tick of the three nobody has won two rounds. */
  lemma {:induction false} AtMostOneRound(calls: seq<Call>, hp: nat -> (int, int))
    requires Stage(calls) < 3
    ensures var r := AfterCalls(calls, hp);
            && !r.matchOver && r.p1Won <= 1 && r.p2Won <= 1
            && (Stage(calls) < 2 && !r.over ==> r.p1Won == 0 && r.p2Won == 0)
            && (Stage(calls) == 0 ==> !r.over)
  {
    if calls != [] {
      AtMostOneRound(calls[..|calls| - 1], hp);
    }
  }

  /** P2 is knocked out at every tick: each tick of a running round is a win of P1. */
  lemma {:induction false} KnockoutsWin(calls: seq<Call>)
    ensures var r := AfterCalls(calls, _ => (1, 0));
            && (r.p1Won >= ROUNDS_TO_WIN ==> r.matchOver)
            && (Stage(calls) >= 1 ==> r.p1Won >= 1)
            && (Stage(calls) == 2 ==> !r.over)
            && (Stage(calls) == 3 ==> r.p1Won >= ROUNDS_TO_WIN)
  {
    if calls != [] {
      KnockoutsWin(calls[..|calls| - 1]);
    }
  }

  /** A caller can end a match, for some health values, if and only if it restarts the round
      between two of its ticks. */
  lemma MatchCanEndExactly(calls: seq<Call>)
    ensures CanEnd(calls) <==> TicksAroundARestart(calls)
  {
    StageFinds(calls);
    if Stage(calls) == 3 {
      KnockoutsWin(calls);
    } else {
      forall hp: nat -> (int, int)
        ensures !AfterCalls(calls, hp).matchOver
      {
        AtMostOneRound(calls, hp);
      }
    }
  }

  // ----- A whole match, for a caller that restarts every round -----

  /** One tick; a round that ended without ending the match is followed by the next one. The
      repository has no such caller: nothing calls the restart. */
  function Drive(r: RoundVal, hp1: int, hp2: int): RoundVal {
    var r' := Tick(r, hp1, hp2);
    if r'.over && !r'.matchOver then StartNext(r') else r'
  }

  function DriveAll(hp1: nat -> int, hp2: nat -> int, n: nat): RoundVal {
    if n == 0 then FIRST else Drive(DriveAll(hp1, hp2, n - 1), hp1(n - 1), hp2(n - 1))
  }

  /** Rounds that have ended. */
  function Finished(r: RoundVal): int {
    if r.over then r.number else r.number - 1
  }

  /** After n finished rounds the players have won between n and 2n together; the match is over
      exactly when one has won two, and until then a round is running. */
  predicate MatchOk(r: RoundVal) {
    && r.number >= 1
    && Finished(r) <= r.p1Won + r.p2Won <= 2 * Finished(r)
    && (r.matchOver <==> r.p1Won >= ROUNDS_TO_WIN || r.p2Won >= ROUNDS_TO_WIN)
    && r.p1Won <= ROUNDS_TO_WIN && r.p2Won <= ROUNDS_TO_WIN
    && (r.over <==> r.matchOver)
    && (!r.matchOver ==> 1 <= r.timer <= ROUND_FRAMES)
    && Finished(r) <= 3
  }

  /** An upper bound on the ticks left: two components, rounds left and the timer. */
  function TicksLeft(r: RoundVal): int {
    if r.matchOver then 0 else (2 - Finished(r)) * ROUND_FRAMES + r.timer
  }

  lemma DriveKeeps(r: RoundVal, hp1: int, hp2: int)
    requires MatchOk(r)
    ensures var r' := Drive(r, hp1, hp2);
            MatchOk(r') && (!r.matchOver ==> TicksLeft(r') < TicksLeft(r)) && (r.matchOver ==> r' == r)
  {
    if !r.matchOver {
      assert Finished(r) <= r.p1Won + r.p2Won <= 2;
    }
  }

  lemma {:induction false} MatchAfter(hp1: nat -> int, hp2: nat -> int, n: nat)
    ensures MatchOk(DriveAll(hp1, hp2, n))
    ensures DriveAll(hp1, hp2, n).matchOver || TicksLeft(DriveAll(hp1, hp2, n)) <= 3 * ROUND_FRAMES - n
  {
    if n > 0 {
      MatchAfter(hp1, hp2, n - 1);
      DriveKeeps(DriveAll(hp1, hp2, n - 1), hp1(n - 1), hp2(n - 1));
    }
  }

  /** For a caller that restarts every round, whatever the health values, the match is over within
      17820 ticks and three rounds. */
  lemma MatchEnds(hp1: nat -> int, hp2: nat -> int)
    ensures var r := DriveAll(hp1, hp2, 17820);
            r.matchOver && 1 <= Finished(r) <= 3 && (r.p1Won == ROUNDS_TO_WIN || r.p2Won == ROUNDS_TO_WIN)
  {
    MatchAfter(hp1, hp2, 17820);
  }

  /** A round that runs out of time with equal health goes to P2, and so does one in which P1 has
      less; P1 takes it exactly with more health. */
  lemma TimeoutExactly(r: RoundVal, hp1: int, hp2: int)
    requires !r.over && r.timer <= 1 && hp1 > 0 && hp2 > 0
    ensures Tick(r, hp1, hp2).over
    ensures Tick(r, hp1, hp2).p1Won == r.p1Won + 1 <==> hp1 > hp2
    ensures Tick(r, hp1, hp2).p2Won == r.p2Won + 1 <==> hp1 <= hp2
  {
  }
}
