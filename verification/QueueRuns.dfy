/** The queues over time: players join and leave, metadata expires, scans run. What is always kept, and
    exactly when metadata and sets stay consistent. */
module QueueRuns {
  import opened Pairing
  import opened Matchmaker

  /** What can happen to the queues. A tie in rating may put a newcomer anywhere among its equals;
      `at` says where. */
  datatype QueueEvent =
    | JoinQueue(entry: QueueEntry, at: nat)
    | LeaveQueue(id: string)
    | Expire(id: string)
    | ScanQueue(region: string, clock: seq<int>)

  /** The region's set without the player, which joins it anew. */
  function Others(q: QueueState, e: QueueEntry): seq<Member> {
    Except(MembersIn(q.zsets, e.region), {e.playerId})
  }

  predicate Accepted(q: QueueState, ev: QueueEvent) {
    ev.JoinQueue? && ev.entry.playerId !in q.meta
  }

  ghost predicate CanHappen(q: QueueState, ev: QueueEvent) {
    match ev
    case JoinQueue(e, at) =>
      && at <= |Others(q, e)|
      && (forall k :: 0 <= k < at ==> Others(q, e)[k].score <= e.elo)
      && (forall k :: at <= k < |Others(q, e)| ==> e.elo <= Others(q, e)[k].score)
    case ScanQueue(region, clock) => |clock| == |Entries(MembersIn(q.zsets, region), q.meta)|
    case LeaveQueue(_) => true
    case Expire(_) => true
  }

  /** A join is refused while the player has metadata, and looks at nothing else; leaving removes the
      player from the region its metadata names. */
  ghost function NextQueue(q: QueueState, ev: QueueEvent, cfg: Settings): QueueState
    requires CanHappen(q, ev)
  {
    match ev
    case JoinQueue(e, at) =>
      if e.playerId in q.meta then q
      else
        var ms := Others(q, e);
        QueueState(q.zsets[e.region := ms[..at] + [Member(e.playerId, e.elo)] + ms[at..]], q.meta[e.playerId := e])
    case LeaveQueue(id) =>
      if id !in q.meta then q else QueueState(Removed(q.zsets, q.meta[id]), q.meta - {id})
    case Expire(id) => q.(meta := q.meta - {id})
    case ScanQueue(region, clock) => ScanIn(q, region, clock, cfg).0
  }

  /** What the sorted sets and the metadata keys give: each set holds a player once and is in order. */
  ghost predicate Structured(q: QueueState) {
    && MetaKeyed(q.meta)
    && (forall r :: r in q.zsets ==> DistinctIds(q.zsets[r]) && ByScore(q.zsets[r]))
  }

  predicate Describes(e: QueueEntry, m: Member, region: string) {
    e.region == region && e.elo == m.score
  }

  /** Every live member of a set is described by its metadata: this region, this rating. */
  ghost predicate Described(ms: seq<Member>, meta: map<string, QueueEntry>, region: string) {
    forall k :: 0 <= k < |ms| && ms[k].playerId in meta ==> Describes(meta[ms[k].playerId], ms[k], region)
  }

  ghost predicate Consistent(q: QueueState) {
    forall r :: r in q.zsets ==> Described(q.zsets[r], q.meta, r)
  }

  /** The player is in no region's set but perhaps the one it joins. */
  ghost predicate NowhereElse(q: QueueState, e: QueueEntry) {
    forall r, k :: r in q.zsets && r != e.region && 0 <= k < |q.zsets[r]| ==> q.zsets[r][k].playerId != e.playerId
  }

  lemma {:induction false} ExceptKeeps(ms: seq<Member>, ids: set<string>)
    ensures DistinctIds(ms) ==> DistinctIds(Except(ms, ids))
    ensures ByScore(ms) ==> ByScore(Except(ms, ids))
  {
    if ms != [] {
      ExceptKeeps(ms[1..], ids);
      var rest := Except(ms[1..], ids);
      forall k | 0 <= k < |rest|
        ensures DistinctIds(ms) ==> ms[0].playerId != rest[k].playerId
        ensures ByScore(ms) ==> ms[0].score <= rest[k].score
      {
        ExceptMember(ms[1..], ids, rest[k]);
        var j :| 0 <= j < |ms[1..]| && ms[1..][j] == rest[k];
        assert ms[j + 1] == rest[k];
      }
    }
  }

  /** Fewer members and less metadata: nothing becomes undescribed. */
  lemma FewerDescribed(ms: seq<Member>, ms': seq<Member>, meta: map<string, QueueEntry>, meta': map<string,
      QueueEntry>, region: string)
    requires Described(ms, meta, region)
    requires forall m :: m in ms' ==> m in ms
    requires forall id :: id in meta' ==> id in meta && meta'[id] == meta[id]
    ensures Described(ms', meta', region)
  {
    forall k | 0 <= k < |ms'| && ms'[k].playerId in meta'
      ensures Describes(meta'[ms'[k].playerId], ms'[k], region)
    {
      assert ms'[k] in ms;
      var j :| 0 <= j < |ms| && ms[j] == ms'[k];
    }
  }

  /** The members after an event other than a join are some of those before it, in order. */
  lemma FewerMembers(q: QueueState, ev: QueueEvent, cfg: Settings, r: string)
    requires CanHappen(q, ev) && !ev.JoinQueue? && r in q.zsets
    ensures var q' := NextQueue(q, ev, cfg);
            && q'.zsets.Keys == q.zsets.Keys
            && (forall m :: m in q'.zsets[r] ==> m in q.zsets[r])
            && (DistinctIds(q.zsets[r]) ==> DistinctIds(q'.zsets[r]))
            && (ByScore(q.zsets[r]) ==> ByScore(q'.zsets[r]))
            && (forall id :: id in q'.meta ==> id in q.meta && q'.meta[id] == q.meta[id])
  {
    var q' := NextQueue(q, ev, cfg);
    match ev
    case LeaveQueue(id) =>
      if id in q.meta {
        ExceptKeeps(q.zsets[r], {id});
        ExceptKeeps(q.zsets[r], {q.meta[id].playerId});
        forall m ensures m in Except(q.zsets[r], {q.meta[id].playerId}) ==> m in q.zsets[r] {
          ExceptMember(q.zsets[r], {q.meta[id].playerId}, m);
        }
      }
    case Expire(_) =>
    case ScanQueue(region, clock) =>
      var read := if region in q.zsets then q.zsets[region := Live(q.zsets[region], q.meta)] else q.zsets;
      var matches := ScanIn(q, region, clock, cfg).1;
      LeaveExactly(read, matches, r);
      LiveKeeps(q.zsets[r], q.meta);
      ExceptKeeps(read[r], PairedIn(matches, r));
      forall m ensures m in Except(read[r], PairedIn(matches, r)) ==> m in q.zsets[r] {
        ExceptMember(read[r], PairedIn(matches, r), m);
        LiveMember(q.zsets[r], q.meta, m);
      }
  }

  lemma InsertedAt(ms: seq<Member>, at: nat, m: Member)
    requires at <= |ms|
    ensures var all := ms[..at] + [m] + ms[at..];
            && |all| == |ms| + 1
            && (forall k {:trigger all[k]} :: 0 <= k < |all| ==>
                  all[k] == if k < at then ms[k] else if k == at then m else ms[k - 1])
            && (forall x :: x in all <==> x == m || x in ms)
  {
    assert ms == ms[..at] + ms[at..];
  }

  /** The set a player has joined. */
  lemma JoinedSet(ms: seq<Member>, at: nat, m: Member, all: seq<Member>)
    requires DistinctIds(ms) && ByScore(ms) && at <= |ms| && |all| == |ms| + 1
    requires forall k {:trigger all[k]} :: 0 <= k < |all| ==>
               all[k] == if k < at then ms[k] else if k == at then m else ms[k - 1]
    requires forall k :: 0 <= k < |ms| ==> ms[k].playerId != m.playerId
    requires forall k :: 0 <= k < at ==> ms[k].score <= m.score
    requires forall k :: at <= k < |ms| ==> m.score <= ms[k].score
    ensures DistinctIds(all) && ByScore(all)
  {
    forall a, b | 0 <= a < b < |all|
      ensures all[a].playerId != all[b].playerId && all[a].score <= all[b].score
    {
      assert all[a] == if a < at then ms[a] else if a == at then m else ms[a - 1];
      assert all[b] == if b < at then ms[b] else if b == at then m else ms[b - 1];
    }
  }

  lemma InsertKeeps(ms: seq<Member>, at: nat, m: Member)
    requires DistinctIds(ms) && ByScore(ms) && at <= |ms|
    requires forall k :: 0 <= k < |ms| ==> ms[k].playerId != m.playerId
    requires forall k :: 0 <= k < at ==> ms[k].score <= m.score
    requires forall k :: at <= k < |ms| ==> m.score <= ms[k].score
    ensures var all := ms[..at] + [m] + ms[at..];
            DistinctIds(all) && ByScore(all) && forall x :: x in all <==> x == m || x in ms
  {
    InsertedAt(ms, at, m);
    JoinedSet(ms, at, m, ms[..at] + [m] + ms[at..]);
  }

  lemma JoinedMembers(q: QueueState, e: QueueEntry, at: nat, cfg: Settings)
    requires Structured(q) && CanHappen(q, JoinQueue(e, at)) && e.playerId !in q.meta
    ensures var ms := NextQueue(q, JoinQueue(e, at), cfg).zsets[e.region];
            && DistinctIds(ms) && ByScore(ms)
            && (forall m :: m in ms <==> m == Member(e.playerId, e.elo)
                                         || (m in MembersIn(q.zsets, e.region) && m.playerId != e.playerId))
  {
    var ms := Others(q, e);
    ExceptKeeps(MembersIn(q.zsets, e.region), {e.playerId});
    forall m ensures m in ms <==> m in MembersIn(q.zsets, e.region) && m.playerId != e.playerId {
      ExceptMember(MembersIn(q.zsets, e.region), {e.playerId}, m);
    }
    assert forall k :: 0 <= k < |ms| ==> ms[k] in ms;
    InsertKeeps(ms, at, Member(e.playerId, e.elo));
  }

  /** Every event keeps the structure. */
  lemma StructureKept(q: QueueState, ev: QueueEvent, cfg: Settings)
    requires Structured(q) && CanHappen(q, ev)
    ensures Structured(NextQueue(q, ev, cfg))
  {
    var q' := NextQueue(q, ev, cfg);
    if Accepted(q, ev) {
      JoinedMembers(q, ev.entry, ev.at, cfg);
    } else if !ev.JoinQueue? {
      forall r | r in q'.zsets
        ensures DistinctIds(q'.zsets[r]) && ByScore(q'.zsets[r])
      {
        KeysKept(q, ev, cfg);
        FewerMembers(q, ev, cfg, r);
      }
      MetaShrinks(q, ev, cfg);
    }
  }

  lemma KeysKept(q: QueueState, ev: QueueEvent, cfg: Settings)
    requires CanHappen(q, ev) && !ev.JoinQueue?
    ensures NextQueue(q, ev, cfg).zsets.Keys == q.zsets.Keys
  {
    if ev.ScanQueue? {
      var read := if ev.region in q.zsets then q.zsets[ev.region := Live(q.zsets[ev.region], q.meta)] else q.zsets;
      LeaveExactly(read, ScanIn(q, ev.region, ev.clock, cfg).1, ev.region);
    }
  }

  lemma MetaShrinks(q: QueueState, ev: QueueEvent, cfg: Settings)
    requires CanHappen(q, ev) && !ev.JoinQueue?
    ensures var meta' := NextQueue(q, ev, cfg).meta;
            forall id :: id in meta' ==> id in q.meta && meta'[id] == q.meta[id]
  {
  }

  /** Leaving, expiry and scans keep the queues consistent. */
  lemma OthersKeepConsistent(q: QueueState, ev: QueueEvent, cfg: Settings)
    requires Consistent(q) && CanHappen(q, ev) && !ev.JoinQueue?
    ensures Consistent(NextQueue(q, ev, cfg))
  {
    var q' := NextQueue(q, ev, cfg);
    KeysKept(q, ev, cfg);
    MetaShrinks(q, ev, cfg);
    forall r | r in q'.zsets
      ensures Described(q'.zsets[r], q'.meta, r)
    {
      FewerMembers(q, ev, cfg, r);
      FewerDescribed(q.zsets[r], q'.zsets[r], q.meta, q'.meta, r);
    }
  }

  /** An accepted join keeps them consistent if and only if the player is in no other region's set:
      the join only looks at the metadata, which may have expired while a set still holds the player. */
  lemma JoinKeepsConsistentExactly(q: QueueState, e: QueueEntry, at: nat, cfg: Settings)
    requires Structured(q) && Consistent(q) && CanHappen(q, JoinQueue(e, at)) && e.playerId !in q.meta
    ensures Consistent(NextQueue(q, JoinQueue(e, at), cfg)) <==> NowhereElse(q, e)
  {
    var q' := NextQueue(q, JoinQueue(e, at), cfg);
    JoinedMembers(q, e, at, cfg);
    if NowhereElse(q, e) {
      forall r, k | r in q'.zsets && 0 <= k < |q'.zsets[r]| && q'.zsets[r][k].playerId in q'.meta
        ensures Describes(q'.meta[q'.zsets[r][k].playerId], q'.zsets[r][k], r)
      {
        var m := q'.zsets[r][k];
        assert m in q'.zsets[r];
        if m.playerId != e.playerId {
          assert m in q.zsets[r];
          var j :| 0 <= j < |q.zsets[r]| && q.zsets[r][j] == m;
          assert Described(q.zsets[r], q.meta, r);
        }
      }
    }
    if !NowhereElse(q, e) {
      var r, k :| r in q.zsets && r != e.region && 0 <= k < |q.zsets[r]| && q.zsets[r][k].playerId == e.playerId;
      assert q'.zsets[r] == q.zsets[r] && !Describes(e, q.zsets[r][k], r);
      assert !Described(q'.zsets[r], q'.meta, r);
    }
  }

  /** A run of the queues from nothing. */
  ghost predicate QueueRun(qs: seq<QueueState>, evs: seq<QueueEvent>, cfg: Settings) {
    && |qs| == |evs| + 1 && qs[0] == QueueState(map[], map[])
    && forall i {:trigger evs[i]} :: 0 <= i < |evs| ==>
         CanHappen(qs[i], evs[i]) && qs[i + 1] == NextQueue(qs[i], evs[i], cfg)
  }

  lemma {:induction false} StructuredInRun(qs: seq<QueueState>, evs: seq<QueueEvent>, cfg: Settings, i: nat)
    requires QueueRun(qs, evs, cfg) && i < |qs|
    ensures Structured(qs[i])
    decreases i
  {
    if i > 0 {
      StructuredInRun(qs, evs, cfg, i - 1);
      StructureKept(qs[i - 1], evs[i - 1], cfg);
    }
  }

  /** At every scan of every run each member of the scanned region has exactly one of the three fates,
      and a matched one leaves the set if and only if its metadata names the region. */
  lemma FateInRun(qs: seq<QueueState>, evs: seq<QueueEvent>, cfg: Settings, i: nat, m: Member) returns (fate: Fate)
    requires QueueRun(qs, evs, cfg) && i < |evs| && evs[i].ScanQueue?
    requires m in MembersIn(qs[i].zsets, evs[i].region)
    requires |evs[i].clock| == |Entries(MembersIn(qs[i].zsets, evs[i].region), qs[i].meta)|
    ensures var matches := ScanIn(qs[i], evs[i].region, evs[i].clock, cfg).1;
            Became(m, evs[i].region, fate, qs[i].meta, matches, MembersIn(qs[i + 1].zsets, evs[i].region),
                qs[i + 1].meta)
  {
    StructuredInRun(qs, evs, cfg, i);
    fate := EveryPlayerAccountedFor(qs[i], evs[i].region, evs[i].clock, cfg, m);
  }

  /** An accepted join finds the player in no other set. */
  ghost predicate JoinsCleanly(q: QueueState, ev: QueueEvent) {
    Accepted(q, ev) ==> NowhereElse(q, ev.entry)
  }

  ghost predicate AllJoinCleanly(qs: seq<QueueState>, evs: seq<QueueEvent>) {
    |qs| >= |evs| && forall j :: 0 <= j < |evs| ==> JoinsCleanly(qs[j], evs[j])
  }

  lemma ConsistentAtStepExactly(qs: seq<QueueState>, evs: seq<QueueEvent>, cfg: Settings, i: nat)
    requires QueueRun(qs, evs, cfg) && i < |evs| && Consistent(qs[i])
    ensures Consistent(qs[i + 1]) <==> JoinsCleanly(qs[i], evs[i])
  {
    StructuredInRun(qs, evs, cfg, i);
    var q, ev := qs[i], evs[i];
    assert CanHappen(q, ev) && qs[i + 1] == NextQueue(q, ev, cfg);
    if Accepted(q, ev) {
      JoinKeepsConsistentExactly(q, ev.entry, ev.at, cfg);
    } else if !ev.JoinQueue? {
      OthersKeepConsistent(q, ev, cfg);
    }
  }

  lemma {:induction false} ConsistentSoFar(qs: seq<QueueState>, evs: seq<QueueEvent>, cfg: Settings, i: nat)
    requires QueueRun(qs, evs, cfg) && AllJoinCleanly(qs, evs) && i < |qs|
    ensures Consistent(qs[i])
    decreases i
  {
    if i > 0 {
      ConsistentSoFar(qs, evs, cfg, i - 1);
      ConsistentAtStepExactly(qs, evs, cfg, i - 1);
    }
  }

  /** The queues are consistent throughout a run if and only if every accepted join finds the player
      in no other region's set. */
  lemma ConsistentInRunExactly(qs: seq<QueueState>, evs: seq<QueueEvent>, cfg: Settings)
    requires QueueRun(qs, evs, cfg)
    ensures (forall i :: 0 <= i < |qs| ==> Consistent(qs[i])) <==> AllJoinCleanly(qs, evs)
  {
    if AllJoinCleanly(qs, evs) {
      forall i | 0 <= i < |qs|
        ensures Consistent(qs[i])
      {
        ConsistentSoFar(qs, evs, cfg, i);
      }
    }
    if forall i :: 0 <= i < |qs| ==> Consistent(qs[i]) {
      forall j | 0 <= j < |evs|
        ensures JoinsCleanly(qs[j], evs[j])
      {
        assert Consistent(qs[j]) && Consistent(qs[j + 1]);
        ConsistentAtStepExactly(qs, evs, cfg, j);
      }
    }
  }

  /** The inconsistent case can happen: joining one region, expiring, and joining another leaves the
      player in both sets, with metadata that names the second only. */
  lemma SecondRegionBreaks(a: QueueEntry, b: QueueEntry, cfg: Settings)
    requires a.playerId == b.playerId && a.region != b.region
    ensures var q1 := NextQueue(QueueState(map[], map[]), JoinQueue(a, 0), cfg);
            var q2 := NextQueue(q1, Expire(a.playerId), cfg);
            && CanHappen(q2, JoinQueue(b, 0))
            && var q3 := NextQueue(q2, JoinQueue(b, 0), cfg);
               && q3.zsets[a.region] == [Member(a.playerId, a.elo)] && q3.zsets[b.region] == [Member(b.playerId, b.elo)]
               && q3.meta == map[a.playerId := b] && !Consistent(q3)
  {
    var q1 := NextQueue(QueueState(map[], map[]), JoinQueue(a, 0), cfg);
    var q3 := NextQueue(NextQueue(q1, Expire(a.playerId), cfg), JoinQueue(b, 0), cfg);
    assert q3.zsets[a.region][0].playerId in q3.meta && !Describes(b, q3.zsets[a.region][0], a.region);
    assert !Described(q3.zsets[a.region], q3.meta, a.region);
  }
}
