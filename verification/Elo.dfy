/** Rating updates. The expected score, a power of ten in the source, is any real in (0, 1). */
module Elo {

  const K_NEW: int := 32
  const K_ESTABLISHED: int := 16
  const NEW_PLAYER_GAMES: nat := 30
  const FLOOR: int := 100

  datatype Winner = P1 | P2 | Draw

  datatype EloChange = EloChange(p1Delta: int, p2Delta: int, p1New: int, p2New: int)

  /** Rounding to the nearest integer, halves up. */
  function RoundHalfUp(x: real): int {
    (x + 0.5).Floor
  }

  function KFactor(games: nat): int {
    if games < NEW_PLAYER_GAMES then K_NEW else K_ESTABLISHED
  }

  function Score(w: Winner): real {
    match w case P1 => 1.0 case P2 => 0.0 case Draw => 0.5
  }

  function Max(a: int, b: int): int {
    if a >= b then a else b
  }

  function CalculateElo(elo1: int, elo2: int, games1: nat, games2: nat, w: Winner, expected1: real): EloChange {
    var d1 := RoundHalfUp(KFactor(games1) as real * (Score(w) - expected1));
    var d2 := RoundHalfUp(KFactor(games2) as real * ((1.0 - Score(w)) - (1.0 - expected1)));
    EloChange(d1, d2, Max(FLOOR, elo1 + d1), Max(FLOOR, elo2 + d2))
  }

  // ----- One match -----

  /** Rounding x and -x: they cancel, except that both halves go up. */
  lemma RoundOpposites(x: real)
    ensures RoundHalfUp(x) + RoundHalfUp(-x) == if (x + 0.5).Floor as real == x + 0.5 then 1 else 0
  {
    var f := (x + 0.5).Floor;
    assert f as real <= x + 0.5 < f as real + 1.0;
    if f as real == x + 0.5 {
      assert (-x + 0.5) == (1 - f) as real;
    } else {
      assert (-f) as real <= -x + 0.5 < (-f) as real + 1.0;
    }
  }

  lemma RoundBetween(x: real, lo: int, hi: int)
    requires lo as real <= x <= hi as real
    ensures lo <= RoundHalfUp(x) <= hi
  {
  }

  /** With equal K the two changes cancel unless the exact change is a half: then both round up and
      one point is created. */
  lemma EqualKSumExactly(elo1: int, elo2: int, games1: nat, games2: nat, w: Winner, e: real)
    requires KFactor(games1) == KFactor(games2)
    ensures var c := CalculateElo(elo1, elo2, games1, games2, w, e);
            var x := KFactor(games1) as real * (Score(w) - e);
            c.p1Delta + c.p2Delta == if (x + 0.5).Floor as real == x + 0.5 then 1 else 0
  {
    var c := CalculateElo(elo1, elo2, games1, games2, w, e);
    var k := KFactor(games1) as real;
    var x := k * (Score(w) - e);
    assert KFactor(games2) as real == k;
    assert (1.0 - Score(w)) - (1.0 - e) == -(Score(w) - e);
    assert k * ((1.0 - Score(w)) - (1.0 - e)) == -x;
    assert c.p1Delta == RoundHalfUp(x);
    assert c.p2Delta == RoundHalfUp(-x);
    RoundOpposites(x);
  }

  /** No change exceeds K, a winner never loses points and a loser never gains any. */
  lemma DeltaBounds(elo1: int, elo2: int, games1: nat, games2: nat, w: Winner, e: real)
    requires 0.0 < e < 1.0
    ensures var c := CalculateElo(elo1, elo2, games1, games2, w, e);
            && -KFactor(games1) <= c.p1Delta <= KFactor(games1)
            && -KFactor(games2) <= c.p2Delta <= KFactor(games2)
            && (w == P1 ==> c.p1Delta >= 0 && c.p2Delta <= 0)
            && (w == P2 ==> c.p2Delta >= 0 && c.p1Delta <= 0)
  {
    var k1, k2 := KFactor(games1), KFactor(games2);
    var s := Score(w);
    var x1, x2 := k1 as real * (s - e), k2 as real * ((1.0 - s) - (1.0 - e));
    assert x2 == k2 as real * (e - s);
    Scaled(k1, s - e);
    Scaled(k2, e - s);
    RoundBetween(x1, if w == P1 then 0 else -k1, if w == P2 then 0 else k1);
    RoundBetween(x2, if w == P2 then 0 else -k2, if w == P1 then 0 else k2);
  }

  lemma Scaled(k: int, y: real)
    requires k > 0 && -1.0 <= y <= 1.0
    ensures -k as real <= k as real * y <= k as real
    ensures y >= 0.0 ==> k as real * y >= 0.0
    ensures y <= 0.0 ==> k as real * y <= 0.0
  {
  }

  // ----- Any sequence of matches -----

  /** Players i and j with equal K meet. */
  datatype Match = Match(i: nat, j: nat, games1: nat, games2: nat, winner: Winner, expected: real)

  predicate Playable(r: seq<int>, m: Match) {
    m.i < |r| && m.j < |r| && m.i != m.j && KFactor(m.games1) == KFactor(m.games2) && 0.0 < m.expected < 1.0
  }

  function Change(r: seq<int>, m: Match): EloChange
    requires Playable(r, m)
  {
    CalculateElo(r[m.i], r[m.j], m.games1, m.games2, m.winner, m.expected)
  }

  function Play(r: seq<int>, m: Match): (r': seq<int>)
    requires Playable(r, m)
    ensures |r'| == |r|
  {
    r[m.i := Change(r, m).p1New][m.j := Change(r, m).p2New]
  }

  /** Points given to players who would fall below the floor. */
  function TopUp(r: seq<int>, m: Match): (t: nat)
    requires Playable(r, m)
  {
    Max(0, FLOOR - (r[m.i] + Change(r, m).p1Delta)) + Max(0, FLOOR - (r[m.j] + Change(r, m).p2Delta))
  }

  function Sum(r: seq<int>): int {
    if r == [] then 0 else r[0] + Sum(r[1..])
  }

  lemma {:induction false} SumUpdate(r: seq<int>, i: nat, v: int)
    requires i < |r|
    ensures Sum(r[i := v]) == Sum(r) - r[i] + v
  {
    if i > 0 {
      SumUpdate(r[1..], i - 1, v);
      assert r[i := v][1..] == r[1..][i - 1 := v];
    } else {
      assert r[i := v][1..] == r[1..];
    }
  }

  lemma PlaySum(r: seq<int>, m: Match)
    requires Playable(r, m)
    ensures 0 <= Sum(Play(r, m)) - Sum(r) - TopUp(r, m) <= 1
    ensures forall k :: 0 <= k < |r| && r[k] >= FLOOR ==> Play(r, m)[k] >= FLOOR
  {
    EqualKSumExactly(r[m.i], r[m.j], m.games1, m.games2, m.winner, m.expected);
    SumUpdate(r, m.i, Change(r, m).p1New);
    SumUpdate(r[m.i := Change(r, m).p1New], m.j, Change(r, m).p2New);
  }

  ghost predicate AllPlayable(r: seq<int>, ms: seq<Match>) {
    forall k :: 0 <= k < |ms| ==> Playable(r, ms[k])
  }

  function PlayAll(r: seq<int>, ms: seq<Match>): (r': seq<int>)
    requires AllPlayable(r, ms)
    ensures |r'| == |r|
    decreases |ms|
  {
    if ms == [] then r else Play(PlayAll(r, ms[..|ms| - 1]), ms[|ms| - 1])
  }

  function TopUps(r: seq<int>, ms: seq<Match>): nat
    requires AllPlayable(r, ms)
    decreases |ms|
  {
    if ms == [] then 0
    else TopUps(r, ms[..|ms| - 1]) + TopUp(PlayAll(r, ms[..|ms| - 1]), ms[|ms| - 1])
  }

  /** Over any sequence of equal-K matches the total rating never falls, and apart from the points
      given at the floor it rises by at most one per match; nobody falls below the floor. */
  lemma {:induction false} TotalRating(r: seq<int>, ms: seq<Match>)
    requires AllPlayable(r, ms) && forall k :: 0 <= k < |r| ==> r[k] >= FLOOR
    ensures 0 <= Sum(PlayAll(r, ms)) - Sum(r) - TopUps(r, ms) <= |ms|
    ensures forall k :: 0 <= k < |r| ==> PlayAll(r, ms)[k] >= FLOOR
    decreases |ms|
  {
    if ms != [] {
      TotalRating(r, ms[..|ms| - 1]);
      PlaySum(PlayAll(r, ms[..|ms| - 1]), ms[|ms| - 1]);
    }
  }
}
