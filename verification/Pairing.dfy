/** Matchmaking: the greedy scan over a region's queue and what its pairs are worth. */
module Pairing {

  datatype QueueEntry = QueueEntry(playerId: string, elo: int, region: string, queuedAt: int)

  /** Search range settings: initial range, growth per second, and cap. */
  datatype Settings = Settings(initialRange: int, expansionPerSec: nat, maxRange: int)

  function Min(a: int, b: int): int {
    if a <= b then a else b
  }

  function Abs(a: int): int {
    if a < 0 then -a else a
  }

  /** The range of an entry at a clock reading in milliseconds; flooring the product of seconds
      and growth is flooring the division by 1000. */
  function EloRange(e: QueueEntry, now: int, cfg: Settings): int {
    Min(cfg.initialRange + (now - e.queuedAt) * cfg.expansionPerSec / 1000, cfg.maxRange)
  }

  /** Every entry's range at the clock reading of its turn as the earlier player. */
  function Ranges(es: seq<QueueEntry>, clock: seq<int>, cfg: Settings): (r: seq<int>)
    requires |clock| == |es|
    ensures |r| == |es|
  {
    seq(|es|, i requires 0 <= i < |es| => EloRange(es[i], clock[i], cfg))
  }

  // ----- Pairings -----

  /** Positions of an earlier and a later entry. */
  datatype Pair = Pair(i: nat, j: nat)

  /** The ratings and ranges a scan works with. */
  datatype Queue = Queue(elo: seq<int>, range: seq<int>)

  predicate Shape(q: Queue) {
    |q.elo| == |q.range|
  }

  predicate Compatible(q: Queue, p: Pair)
    requires Shape(q)
  {
    p.i < p.j < |q.elo| && Abs(q.elo[p.i] - q.elo[p.j]) <= q.range[p.i]
  }

  predicate Touches(p: Pair, k: nat) {
    p.i == k || p.j == k
  }

  predicate Disjoint(p: Pair, r: Pair) {
    !Touches(p, r.i) && !Touches(p, r.j)
  }

  /** A matching: compatible pairs, no player in two of them. */
  ghost predicate Matching(q: Queue, ps: seq<Pair>)
    requires Shape(q)
  {
    && (forall a :: 0 <= a < |ps| ==> Compatible(q, ps[a]))
    && (forall a, b :: 0 <= a < b < |ps| ==> Disjoint(ps[a], ps[b]))
  }

  ghost predicate Covered(ps: seq<Pair>, k: nat) {
    exists a :: 0 <= a < |ps| && Touches(ps[a], k)
  }

  // ----- The scan -----

  /** The first entry after i, from j on, that is unmatched and in range. */
  function FirstPartner(q: Queue, matched: set<int>, i: nat, j: nat): (r: nat)
    requires Shape(q) && i < j <= |q.elo|
    ensures j <= r <= |q.elo|
    ensures r < |q.elo| ==> r !in matched && Compatible(q, Pair(i, r))
    ensures forall k :: j <= k < r && k !in matched ==> !Compatible(q, Pair(i, k))
    decreases |q.elo| - j
  {
    if j == |q.elo| then j
    else if j !in matched && Abs(q.elo[i] - q.elo[j]) <= q.range[i] then j
    else FirstPartner(q, matched, i, j + 1)
  }

  /** The scan from position i on, given the positions matched so far. */
  function Scan(q: Queue, matched: set<int>, i: nat): seq<Pair>
    requires Shape(q) && i <= |q.elo|
    decreases |q.elo| - i
  {
    if i == |q.elo| then []
    else if i in matched then Scan(q, matched, i + 1)
    else
      var j := FirstPartner(q, matched, i, i + 1);
      if j == |q.elo| then Scan(q, matched, i + 1)
      else [Pair(i, j)] + Scan(q, matched + {i, j}, i + 1)
  }

  function Greedy(q: Queue): seq<Pair>
    requires Shape(q)
  {
    Scan(q, {}, 0)
  }

  // ----- Any queue order: a maximal matching -----

  lemma PairAhead(q: Queue, p: Pair, rest: seq<Pair>)
    requires Shape(q) && Matching(q, rest) && Compatible(q, p)
    requires forall a :: 0 <= a < |rest| ==> Disjoint(p, rest[a])
    ensures Matching(q, [p] + rest)
  {
    var all := [p] + rest;
    assert forall a :: 1 <= a < |all| ==> all[a] == rest[a - 1];
  }

  lemma {:induction false} ScanPairs(q: Queue, matched: set<int>, i: nat)
    requires Shape(q) && i <= |q.elo|
    ensures Matching(q, Scan(q, matched, i))
    ensures forall a :: 0 <= a < |Scan(q, matched, i)| ==>
              var p := Scan(q, matched, i)[a]; p.i >= i && p.i !in matched && p.j !in matched
    decreases |q.elo| - i
  {
    if i < |q.elo| {
      var j := FirstPartner(q, matched, i, i + 1);
      if i in matched || j == |q.elo| {
        ScanPairs(q, matched, i + 1);
      } else {
        ScanPairs(q, matched + {i, j}, i + 1);
        PairAhead(q, Pair(i, j), Scan(q, matched + {i, j}, i + 1));
      }
    }
  }

  /** No two entries left over, earlier and later, are within the earlier one's range. */
  lemma {:induction false} ScanLeavesNoPair(q: Queue, matched: set<int>, i: nat, p: Pair)
    requires Shape(q) && i <= p.i && Compatible(q, p) && p.i !in matched && p.j !in matched
    ensures Covered(Scan(q, matched, i), p.i) || Covered(Scan(q, matched, i), p.j)
    decreases |q.elo| - i
  {
    var j := FirstPartner(q, matched, i, i + 1);
    var all := Scan(q, matched, i);
    if i in matched || j == |q.elo| {
      assert p.i != i;
      ScanLeavesNoPair(q, matched, i + 1, p);
    } else {
      assert all[0] == Pair(i, j);
      if !Touches(all[0], p.i) && !Touches(all[0], p.j) {
        ScanLeavesNoPair(q, matched + {i, j}, i + 1, p);
        var rest := Scan(q, matched + {i, j}, i + 1);
        assert all[1..] == rest;
        var k := if Covered(rest, p.i) then p.i else p.j;
        var a :| 0 <= a < |rest| && Touches(rest[a], k);
        assert Touches(all[a + 1], k);
      }
    }
  }

  /** For any queue order the scan gives a matching that cannot be extended. */
  lemma GreedyIsMaximal(q: Queue)
    requires Shape(q)
    ensures Matching(q, Greedy(q))
    ensures forall p :: Compatible(q, p) ==> Covered(Greedy(q), p.i) || Covered(Greedy(q), p.j)
  {
    ScanPairs(q, {}, 0);
    forall p | Compatible(q, p)
      ensures Covered(Greedy(q), p.i) || Covered(Greedy(q), p.j)
    {
      ScanLeavesNoPair(q, {}, 0, p);
    }
  }

  // ----- Removing pairs from a matching -----

  /** The pairs that do not touch k. */
  function Without(ps: seq<Pair>, k: nat): seq<Pair> {
    if ps == [] then []
    else if Touches(ps[0], k) then Without(ps[1..], k)
    else [ps[0]] + Without(ps[1..], k)
  }

  lemma {:induction false} WithoutMember(ps: seq<Pair>, k: nat, p: Pair)
    ensures p in Without(ps, k) <==> p in ps && !Touches(p, k)
  {
    if ps != [] {
      WithoutMember(ps[1..], k, p);
      assert ps == [ps[0]] + ps[1..];
    }
  }

  /** Dropping the pairs of one player leaves a matching. */
  lemma WithoutMatching(q: Queue, ps: seq<Pair>, k: nat)
    requires Shape(q) && Matching(q, ps)
    ensures Matching(q, Without(ps, k))
  {
    WithoutOrdered(ps, k);
    forall a | 0 <= a < |Without(ps, k)|
      ensures Compatible(q, Without(ps, k)[a])
    {
      WithoutMember(ps, k, Without(ps, k)[a]);
    }
  }

  ghost predicate PairwiseDisjoint(ps: seq<Pair>) {
    forall a, b :: 0 <= a < b < |ps| ==> Disjoint(ps[a], ps[b])
  }

  lemma {:induction false} WithoutOrdered(ps: seq<Pair>, k: nat)
    requires PairwiseDisjoint(ps)
    ensures PairwiseDisjoint(Without(ps, k))
  {
    if ps != [] {
      WithoutOrdered(ps[1..], k);
      var rest := Without(ps[1..], k);
      forall a | 0 <= a < |rest|
        ensures Disjoint(ps[0], rest[a])
      {
        WithoutMember(ps[1..], k, rest[a]);
      }
    }
  }

  /** A player is in at most one pair of a matching. */
  lemma {:induction false} WithoutCount(ps: seq<Pair>, k: nat)
    requires PairwiseDisjoint(ps)
    ensures |Without(ps, k)| >= |ps| - 1
    ensures (forall a :: 0 <= a < |ps| ==> !Touches(ps[a], k)) ==> |Without(ps, k)| == |ps|
  {
    if ps != [] {
      WithoutCount(ps[1..], k);
      if Touches(ps[0], k) {
        assert forall a :: 0 <= a < |ps[1..]| ==> Disjoint(ps[0], ps[1..][a]);
      }
    }
  }

  /** Every matching is at most twice as large as the scan's, whatever the order and the ranges. */
  lemma GreedyHalfOfAny(q: Queue, m: seq<Pair>)
    requires Shape(q) && Matching(q, m)
    ensures |m| <= 2 * |Greedy(q)|
  {
    GreedyIsMaximal(q);
    CoverBound(q, m, Greedy(q));
  }

  /** A pair that touches g but not its first pair touches another one. */
  lemma StillCovered(g: seq<Pair>, p: Pair)
    requires g != [] && (Covered(g, p.i) || Covered(g, p.j)) && !Touches(p, g[0].i) && !Touches(p, g[0].j)
    ensures Covered(g[1..], p.i) || Covered(g[1..], p.j)
  {
    var k := if Covered(g, p.i) then p.i else p.j;
    var a :| 0 <= a < |g| && Touches(g[a], k);
    assert Touches(g[1..][a - 1], k);
  }

  /** If every pair of m touches a pair of g, m is at most twice as large as g. */
  lemma {:induction false} CoverBound(q: Queue, m: seq<Pair>, g: seq<Pair>)
    requires Shape(q) && Matching(q, m)
    requires forall p :: p in m ==> Covered(g, p.i) || Covered(g, p.j)
    ensures |m| <= 2 * |g|
    decreases |g|
  {
    assert |m| > 0 ==> Covered(g, m[0].i) || Covered(g, m[0].j);
    if g != [] {
      var x, y := g[0].i, g[0].j;
      var m1 := Without(m, x);
      var m2 := Without(m1, y);
      WithoutMatching(q, m, x);
      WithoutMatching(q, m1, y);
      WithoutCount(m, x);
      WithoutCount(m1, y);
      forall p | p in m2
        ensures Covered(g[1..], p.i) || Covered(g[1..], p.j)
      {
        WithoutMember(m1, y, p);
        WithoutMember(m, x, p);
        StillCovered(g, p);
      }
      CoverBound(q, m2, g[1..]);
    }
  }

  // ----- Ascending queues: adjacent pairs -----

  predicate Ascending(q: Queue) {
    forall i, j :: 0 <= i < j < |q.elo| ==> q.elo[i] <= q.elo[j]
  }

  /** The linear scan: pair with the next entry or move on. */
  function Linear(q: Queue, i: nat): seq<Pair>
    requires Shape(q) && i <= |q.elo|
    decreases |q.elo| - i
  {
    if i + 1 >= |q.elo| then []
    else if q.elo[i + 1] - q.elo[i] <= q.range[i] then [Pair(i, i + 1)] + Linear(q, i + 2)
    else Linear(q, i + 1)
  }

  lemma FirstPartnerAscending(q: Queue, matched: set<int>, i: nat)
    requires Shape(q) && Ascending(q) && i < |q.elo| && forall k :: k in matched ==> k < i
    ensures FirstPartner(q, matched, i, i + 1)
         == if i + 1 < |q.elo| && q.elo[i + 1] - q.elo[i] <= q.range[i] then i + 1 else |q.elo|
  {
    var j := FirstPartner(q, matched, i, i + 1);
    assert i + 1 < |q.elo| && j < |q.elo| ==> q.elo[i] <= q.elo[i + 1] <= q.elo[j];
  }

  lemma SkipMatched(q: Queue, matched: set<int>, i: nat)
    requires Shape(q) && i < |q.elo| && i in matched
    ensures Scan(q, matched, i) == Scan(q, matched, i + 1)
  {
  }

  /** The next entry is in range, so the scan pairs with it and goes on after both. */
  lemma ScanNear(q: Queue, matched: set<int>, i: nat, more: set<int>)
    requires Shape(q) && i + 1 < |q.elo| && i !in matched && FirstPartner(q, matched, i, i + 1) == i + 1
    requires more == matched + {i, i + 1}
    ensures Scan(q, matched, i) == [Pair(i, i + 1)] + Scan(q, more, i + 2)
  {
    SkipMatched(q, more, i + 1);
  }

  lemma LinearNear(q: Queue, matched: set<int>, i: nat, more: set<int>)
    requires Shape(q) && i + 1 < |q.elo| && q.elo[i + 1] - q.elo[i] <= q.range[i] && more == matched + {i, i + 1}
    requires i !in matched && FirstPartner(q, matched, i, i + 1) == i + 1
    requires Scan(q, more, i + 2) == Linear(q, i + 2)
    ensures Scan(q, matched, i) == Linear(q, i)
  {
    ScanNear(q, matched, i, more);
  }

  /** It is not, so nobody is. */
  lemma LinearFar(q: Queue, matched: set<int>, i: nat)
    requires Shape(q) && i < |q.elo| && !(i + 1 < |q.elo| && q.elo[i + 1] - q.elo[i] <= q.range[i])
    requires i !in matched && FirstPartner(q, matched, i, i + 1) == |q.elo|
    requires Scan(q, matched, i + 1) == Linear(q, i + 1)
    ensures Scan(q, matched, i) == Linear(q, i)
  {
  }

  lemma {:induction false} ScanIsLinear(q: Queue, matched: set<int>, i: nat)
    requires Shape(q) && Ascending(q) && i <= |q.elo|
    requires forall k :: k in matched ==> k < i
    ensures Scan(q, matched, i) == Linear(q, i)
    decreases |q.elo| - i
  {
    if i < |q.elo| {
      FirstPartnerAscending(q, matched, i);
      if i + 1 < |q.elo| && q.elo[i + 1] - q.elo[i] <= q.range[i] {
        var more := matched + {i, i + 1};
        ScanIsLinear(q, more, i + 2);
        LinearNear(q, matched, i, more);
      } else {
        ScanIsLinear(q, matched, i + 1);
        LinearFar(q, matched, i);
      }
    }
  }

  /** On an ascending queue the quadratic scan is the linear scan of neighbours. */
  lemma GreedyIsLinear(q: Queue)
    requires Shape(q) && Ascending(q)
    ensures Greedy(q) == Linear(q, 0)
  {
    ScanIsLinear(q, {}, 0);
  }

  // ----- Ascending queues with growing reach: a maximum matching -----

  /** The highest rating an entry accepts never decreases along the queue. */
  predicate ReachGrows(q: Queue)
    requires Shape(q)
  {
    forall i, j :: 0 <= i < j < |q.elo| ==> q.elo[i] + q.range[i] <= q.elo[j] + q.range[j]
  }

  ghost predicate From(ps: seq<Pair>, k: nat) {
    forall a :: 0 <= a < |ps| ==> ps[a].i >= k
  }

  lemma WithoutBoth(m: seq<Pair>, i: nat, p: Pair)
    ensures p in Without(Without(m, i), i + 1) <==> p in m && !Touches(p, i) && !Touches(p, i + 1)
  {
    WithoutMember(m, i, p);
    WithoutMember(Without(m, i), i + 1, p);
  }

  /** Dropping the pairs of two neighbours from a matching that starts at the first of them. */
  lemma DropNeighbours(q: Queue, m: seq<Pair>, i: nat)
    requires Shape(q) && Matching(q, m) && From(m, i)
    ensures var m2 := Without(Without(m, i), i + 1);
            Matching(q, m2) && From(m2, i + 2) && |m2| >= |m| - 2
  {
    var m1 := Without(m, i);
    var m2 := Without(m1, i + 1);
    WithoutMatching(q, m, i);
    WithoutMatching(q, m1, i + 1);
    WithoutCount(m, i);
    WithoutCount(m1, i + 1);
    forall a | 0 <= a < |m2|
      ensures m2[a].i >= i + 2
    {
      WithoutBoth(m, i, m2[a]);
      var c :| 0 <= c < |m| && m[c] == m2[a];
    }
  }

  /** Two different pairs hold i and i + 1. */
  ghost predicate TwoPairsHold(m: seq<Pair>, i: nat) {
    exists a, b :: 0 <= a < |m| && 0 <= b < |m| && Touches(m[a], i) && Touches(m[b], i + 1) && a != b
  }

  /** One dropped pair at most, when no two different pairs hold the two neighbours. */
  lemma DropOnePair(q: Queue, m: seq<Pair>, i: nat)
    requires Shape(q) && Matching(q, m) && From(m, i)
    requires !TwoPairsHold(m, i)
    ensures |Without(Without(m, i), i + 1)| >= |m| - 1
  {
    var m1 := Without(m, i);
    WithoutMatching(q, m, i);
    WithoutCount(m, i);
    WithoutCount(m1, i + 1);
    if exists a :: 0 <= a < |m| && Touches(m[a], i) {
      var a :| 0 <= a < |m| && Touches(m[a], i);
      forall c | 0 <= c < |m1|
        ensures !Touches(m1[c], i + 1)
      {
        WithoutMember(m, i, m1[c]);
        var b :| 0 <= b < |m| && m[b] == m1[c];
      }
    }
  }

  /** The exchange: two neighbours matched elsewhere can be matched with each other, and their
      partners with each other, when reach grows. */
  lemma PartnersFit(q: Queue, i: nat, a: nat, b: nat)
    requires Shape(q) && Ascending(q) && ReachGrows(q)
    requires Compatible(q, Pair(i, a)) && Compatible(q, Pair(i + 1, b)) && a != b && a > i + 1 && b > i + 1
    ensures Compatible(q, if a < b then Pair(a, b) else Pair(b, a))
  {
  }

  lemma {:induction false} LinearIsMaximum(q: Queue, i: nat, m: seq<Pair>)
    requires Shape(q) && Ascending(q) && ReachGrows(q) && i <= |q.elo|
    requires Matching(q, m) && From(m, i)
    ensures |m| <= |Linear(q, i)|
    decreases |q.elo| - i
  {
    assert |m| > 0 ==> Compatible(q, m[0]);
    if i + 1 < |q.elo| {
      if q.elo[i + 1] - q.elo[i] <= q.range[i] {
        var r := Exchange(q, i, m);
        LinearIsMaximum(q, i + 2, r);
      } else {
        NoPartner(q, i, m);
        LinearIsMaximum(q, i + 1, m);
      }
    }
  }

  /** An entry that cannot take its neighbour can take nobody later. */
  lemma NoPartner(q: Queue, i: nat, m: seq<Pair>)
    requires Shape(q) && Ascending(q) && i + 1 < |q.elo| && Matching(q, m) && From(m, i)
    requires q.elo[i + 1] - q.elo[i] > q.range[i]
    ensures From(m, i + 1)
  {
    forall a | 0 <= a < |m|
      ensures m[a].i >= i + 1
    {
      assert Compatible(q, m[a]);
      assert m[a].j > i + 1 ==> q.elo[i] <= q.elo[i + 1] <= q.elo[m[a].j];
    }
  }

  /** The partners' pair meets no other pair of the matching. */
  lemma SwapMeetsNoOther(q: Queue, i: nat, m: seq<Pair>, a: nat, b: nat, p: Pair)
    requires Shape(q) && Matching(q, m) && a < |m| && b < |m| && a != b
    requires m[a].i == i && m[b].i == i + 1 && p in m && !Touches(p, i) && !Touches(p, i + 1)
    ensures !Touches(p, m[a].j) && !Touches(p, m[b].j)
  {
    var d :| 0 <= d < |m| && m[d] == p;
    assert d != a && d != b;
    assert if d < a then Disjoint(m[d], m[a]) else Disjoint(m[a], m[d]);
    assert if d < b then Disjoint(m[d], m[b]) else Disjoint(m[b], m[d]);
  }

  /** Two different pairs that hold two neighbours: the partners can be paired instead. */
  lemma ExchangePartners(q: Queue, i: nat, m: seq<Pair>, a: nat, b: nat) returns (swap: Pair)
    requires Shape(q) && Ascending(q) && ReachGrows(q)
    requires Matching(q, m) && From(m, i) && a < |m| && b < |m| && a != b
    requires Touches(m[a], i) && Touches(m[b], i + 1)
    ensures Compatible(q, swap) && swap.i >= i + 2
    ensures forall p :: p in m && !Touches(p, i) && !Touches(p, i + 1) ==> Disjoint(p, swap)
  {
    assert Compatible(q, m[a]) && Compatible(q, m[b]);
    assert if a < b then Disjoint(m[a], m[b]) else Disjoint(m[b], m[a]);
    var x, y := m[a].j, m[b].j;
    PartnersFit(q, i, x, y);
    swap := if x < y then Pair(x, y) else Pair(y, x);
    forall p | p in m && !Touches(p, i) && !Touches(p, i + 1)
      ensures Disjoint(p, swap)
    {
      SwapMeetsNoOther(q, i, m, a, b, p);
    }
  }

  lemma MatchingMore(q: Queue, ps: seq<Pair>, p: Pair)
    requires Shape(q) && Matching(q, ps) && Compatible(q, p)
    requires forall a :: 0 <= a < |ps| ==> Disjoint(ps[a], p)
    ensures Matching(q, ps + [p])
  {
  }

  /** The pairs left after dropping those of i and i + 1, with the two partners paired. */
  lemma ExchangeTwo(q: Queue, i: nat, m: seq<Pair>, a: nat, b: nat) returns (r: seq<Pair>)
    requires Shape(q) && Ascending(q) && ReachGrows(q)
    requires Matching(q, m) && From(m, i) && a < |m| && b < |m| && a != b
    requires Touches(m[a], i) && Touches(m[b], i + 1)
    ensures Matching(q, r) && From(r, i + 2) && |r| >= |m| - 1
  {
    var swap := ExchangePartners(q, i, m, a, b);
    DropNeighbours(q, m, i);
    var rest := Without(Without(m, i), i + 1);
    forall c | 0 <= c < |rest|
      ensures Disjoint(rest[c], swap)
    {
      WithoutBoth(m, i, rest[c]);
    }
    MatchingMore(q, rest, swap);
    r := rest + [swap];
  }

  /** Any matching from i on can give up one pair so that the rest starts at i + 2: the two
      partners of i and i + 1, if they are different, are paired with each other. */
  lemma Exchange(q: Queue, i: nat, m: seq<Pair>) returns (r: seq<Pair>)
    requires Shape(q) && Ascending(q) && ReachGrows(q) && i + 1 < |q.elo|
    requires Matching(q, m) && From(m, i)
    ensures Matching(q, r) && From(r, i + 2) && |r| >= |m| - 1
  {
    if TwoPairsHold(m, i) {
      var a, b :| 0 <= a < |m| && 0 <= b < |m| && Touches(m[a], i) && Touches(m[b], i + 1) && a != b;
      r := ExchangeTwo(q, i, m, a, b);
    } else {
      DropNeighbours(q, m, i);
      DropOnePair(q, m, i);
      r := Without(Without(m, i), i + 1);
    }
  }

  /** When the queue ascends and reach grows along it, in particular when all ranges are equal, no
      matching has more pairs than the scan. */
  lemma GreedyIsMaximum(q: Queue, m: seq<Pair>)
    requires Shape(q) && Ascending(q) && ReachGrows(q) && Matching(q, m)
    ensures |m| <= |Greedy(q)|
  {
    GreedyIsLinear(q);
    LinearIsMaximum(q, 0, m);
  }

  /** Without growing reach the scan can miss half of the pairs: the first entry takes its
      neighbour, whose wide range the later entries needed. With the default settings this is an
      entry that has waited 20 seconds among three that have just joined. */
  lemma GreedyNotAlwaysMaximum(es: seq<QueueEntry>, clock: seq<int>)
    requires |es| == 4 && clock == [20000, 20000, 20000, 20000]
    requires es[0].elo == 1000 && es[1].elo == 1000 && es[2].elo == 1100 && es[3].elo == 1500
    requires es[0].queuedAt == 20000 && es[1].queuedAt == 0 && es[2].queuedAt == 20000 && es[3].queuedAt == 20000
    ensures var q := QueueOf(es, clock, Settings(100, 20, 500));
            Ascending(q) && Matching(q, [Pair(0, 2), Pair(1, 3)]) && Greedy(q) == [Pair(0, 1)]
  {
    var q := QueueOf(es, clock, Settings(100, 20, 500));
    assert q.range == [100, 500, 100, 100];
    GreedyIsLinear(q);
    assert Linear(q, 4) == [];
    assert Linear(q, 3) == [];
    assert Linear(q, 2) == [];
  }

  /** What the scan works with: ratings, and ranges at the clock readings. */
  function QueueOf(es: seq<QueueEntry>, clock: seq<int>, cfg: Settings): (q: Queue)
    requires |clock| == |es|
    ensures Shape(q) && |q.elo| == |es|
  {
    Queue(seq(|es|, i requires 0 <= i < |es| => es[i].elo), Ranges(es, clock, cfg))
  }
}
