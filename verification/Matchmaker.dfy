/** The queue behind the scan: a sorted set of members per region and the players' metadata,
    which expires on its own. */
module Matchmaker {
  import opened Pairing

  datatype Member = Member(playerId: string, score: int)

  /** Members without their expired ones. */
  function Live(ms: seq<Member>, meta: map<string, QueueEntry>): seq<Member> {
    if ms == [] then []
    else if ms[0].playerId in meta then [ms[0]] + Live(ms[1..], meta)
    else Live(ms[1..], meta)
  }

  /** The metadata of the live members, in order. */
  function Entries(ms: seq<Member>, meta: map<string, QueueEntry>): (es: seq<QueueEntry>)
    ensures |es| == |Live(ms, meta)|
  {
    if ms == [] then []
    else if ms[0].playerId in meta then [meta[ms[0].playerId]] + Entries(ms[1..], meta)
    else Entries(ms[1..], meta)
  }

  /** Removal of a set of players from a sorted set. */
  function Except(ms: seq<Member>, ids: set<string>): seq<Member> {
    if ms == [] then []
    else if ms[0].playerId in ids then Except(ms[1..], ids)
    else [ms[0]] + Except(ms[1..], ids)
  }

  ghost predicate DistinctIds(ms: seq<Member>) {
    forall a, b :: 0 <= a < b < |ms| ==> ms[a].playerId != ms[b].playerId
  }

  ghost predicate ByScore(ms: seq<Member>) {
    forall a, b :: 0 <= a < b < |ms| ==> ms[a].score <= ms[b].score
  }

  // ----- Facts about the queue -----

  lemma {:induction false} LiveMember(ms: seq<Member>, meta: map<string, QueueEntry>, m: Member)
    ensures m in Live(ms, meta) <==> m in ms && m.playerId in meta
  {
    if ms != [] {
      LiveMember(ms[1..], meta, m);
      assert ms == [ms[0]] + ms[1..];
    }
  }

  lemma {:induction false} LiveKeeps(ms: seq<Member>, meta: map<string, QueueEntry>)
    ensures DistinctIds(ms) ==> DistinctIds(Live(ms, meta))
    ensures ByScore(ms) ==> ByScore(Live(ms, meta))
  {
    if ms != [] {
      LiveKeeps(ms[1..], meta);
      var rest := Live(ms[1..], meta);
      forall k | 0 <= k < |rest|
        ensures DistinctIds(ms) ==> ms[0].playerId != rest[k].playerId
        ensures ByScore(ms) ==> ms[0].score <= rest[k].score
      {
        LiveMember(ms[1..], meta, rest[k]);
        var j :| 0 <= j < |ms[1..]| && ms[1..][j] == rest[k];
        assert ms[j + 1] == rest[k];
      }
    }
  }

  lemma {:induction false} ExceptMember(ms: seq<Member>, ids: set<string>, m: Member)
    ensures m in Except(ms, ids) <==> m in ms && m.playerId !in ids
  {
    if ms != [] {
      ExceptMember(ms[1..], ids, m);
      assert ms == [ms[0]] + ms[1..];
    }
  }

  lemma {:induction false} ExceptTwice(ms: seq<Member>, a: set<string>, b: set<string>)
    ensures Except(Except(ms, a), b) == Except(ms, a + b)
  {
    if ms != [] {
      ExceptTwice(ms[1..], a, b);
      if ms[0].playerId !in a {
        assert Except(ms, a)[1..] == Except(ms[1..], a);
      }
    }
  }

  lemma {:induction false} ExceptNobody(ms: seq<Member>)
    ensures Except(ms, {}) == ms
  {
    if ms != [] {
      ExceptNobody(ms[1..]);
    }
  }

  lemma {:induction false} EntriesAppend(a: seq<Member>, m: Member, meta: map<string, QueueEntry>)
    ensures Entries(a + [m], meta) == Entries(a, meta) + if m.playerId in meta then [meta[m.playerId]] else []
  {
    if a == [] {
      assert a + [m] == [m];
    } else {
      assert (a + [m])[1..] == a[1..] + [m];
      EntriesAppend(a[1..], m, meta);
    }
  }

  /** Metadata is stored under the id of the player it names. */
  ghost predicate MetaKeyed(meta: map<string, QueueEntry>) {
    forall id :: id in meta ==> meta[id].playerId == id
  }

  /** The live members' metadata gives the rating they were queued with. */
  ghost predicate RatingsAreScores(ms: seq<Member>, meta: map<string, QueueEntry>) {
    forall k :: 0 <= k < |ms| && ms[k].playerId in meta ==> meta[ms[k].playerId].elo == ms[k].score
  }

  /** The live entries are those of the live members, one by one. */
  lemma {:induction false} EntriesOfLive(ms: seq<Member>, meta: map<string, QueueEntry>, k: nat)
    requires k < |Live(ms, meta)|
    ensures Live(ms, meta)[k] in ms && Live(ms, meta)[k].playerId in meta
    ensures Entries(ms, meta)[k] == meta[Live(ms, meta)[k].playerId]
  {
    if ms[0].playerId !in meta {
      EntriesOfLive(ms[1..], meta, k);
    } else if k > 0 {
      EntriesOfLive(ms[1..], meta, k - 1);
    }
  }

  ghost predicate DistinctPlayers(es: seq<QueueEntry>) {
    forall a, b :: 0 <= a < b < |es| ==> es[a].playerId != es[b].playerId
  }

  /** The live entries of a queue are distinct players, whatever regions and ratings they name. */
  lemma EntriesDistinct(ms: seq<Member>, meta: map<string, QueueEntry>)
    requires DistinctIds(ms) && MetaKeyed(meta)
    ensures DistinctPlayers(Entries(ms, meta))
  {
    LiveKeeps(ms, meta);
    forall k | 0 <= k < |Live(ms, meta)|
      ensures Entries(ms, meta)[k].playerId == Live(ms, meta)[k].playerId
    {
      EntriesOfLive(ms, meta, k);
    }
  }

  /** They are in ascending order of rating if the ratings are the scores. */
  lemma EntriesOrdered(ms: seq<Member>, meta: map<string, QueueEntry>)
    requires ByScore(ms) && RatingsAreScores(ms, meta)
    ensures var es := Entries(ms, meta); forall a, b :: 0 <= a < b < |es| ==> es[a].elo <= es[b].elo
  {
    LiveKeeps(ms, meta);
    forall k | 0 <= k < |Live(ms, meta)|
      ensures Entries(ms, meta)[k].elo == Live(ms, meta)[k].score
    {
      EntriesOfLive(ms, meta, k);
      var j :| 0 <= j < |ms| && ms[j] == Live(ms, meta)[k];
    }
  }

  /** Dropping every expired member leaves the live ones. */
  lemma {:induction false} ExceptExpired(ms: seq<Member>, meta: map<string, QueueEntry>, ids: set<string>)
    requires forall k :: 0 <= k < |ms| ==> (ms[k].playerId in ids <==> ms[k].playerId !in meta)
    ensures Except(ms, ids) == Live(ms, meta)
  {
    if ms != [] {
      assert forall k :: 0 <= k < |ms[1..]| ==> ms[1..][k] == ms[k + 1];
      ExceptExpired(ms[1..], meta, ids);
    }
  }

  // ----- The queue and the scan -----

  /** The members of a region's set; a region nobody has joined has none. */
  function MembersIn(zsets: map<string, seq<Member>>, region: string): seq<Member> {
    if region in zsets then zsets[region] else []
  }

  /** The sets after an entry has been removed: from the set of the region it names. */
  function Removed(zsets: map<string, seq<Member>>, e: QueueEntry): map<string, seq<Member>> {
    if e.region in zsets then zsets[e.region := Except(zsets[e.region], {e.playerId})] else zsets
  }

  /** Region -> members by ascending score, and player -> metadata. */
  datatype QueueState = QueueState(zsets: map<string, seq<Member>>, meta: map<string, QueueEntry>)

  class MatchQueue {
    var zsets: map<string, seq<Member>>
    var meta: map<string, QueueEntry>

    function Val(): QueueState
      reads this
    {
      QueueState(zsets, meta)
    }

    method Zrem(region: string, id: string)
      modifies this`zsets
      ensures zsets == if region in old(zsets) then old(zsets)[region := Except(old(zsets)[region],
          {id})] else old(zsets)
    {
      if region in zsets {
        zsets := zsets[region := Except(zsets[region], {id})];
      }
    }

    /** Before member i is read: `expired` are the expired ones so far, and they are gone. */
    ghost predicate Reading(region: string, members: seq<Member>, before: map<string, seq<Member>>,
      i: nat, es: seq<QueueEntry>, expired: set<string>)
      requires i <= |members|
      reads this
    {
      && zsets == before[region := Except(members, expired)]
      && es == Entries(members[..i], meta)
      && (forall id :: id in expired ==> id !in meta)
      && (forall k :: 0 <= k < i && members[k].playerId !in meta ==> members[k].playerId in expired)
    }

    /** Member i: its metadata, or its removal if there is none. */
    method ReadMember(region: string, members: seq<Member>, i: nat, es: seq<QueueEntry>,
      ghost before: map<string, seq<Member>>, ghost expired: set<string>)
      returns (es': seq<QueueEntry>, ghost expired': set<string>)
      requires i < |members| && Reading(region, members, before, i, es, expired)
      modifies this`zsets
      ensures Reading(region, members, before, i + 1, es', expired')
    {
      var id := members[i].playerId;
      assert members[..i + 1] == members[..i] + [members[i]];
      EntriesAppend(members[..i], members[i], meta);
      if id !in meta {
        ExceptTwice(members, expired, {id});
        Zrem(region, id);
        es', expired' := es, expired + {id};
      } else {
        es', expired' := es + [meta[id]], expired;
      }
    }

    /** Reads the region's members in order; those whose metadata has expired are removed. */
    method Dequeue(region: string) returns (es: seq<QueueEntry>)
      modifies this`zsets
      ensures es == Entries(MembersIn(old(zsets), region), meta)
      ensures zsets == if region in old(zsets) then old(zsets)[region := Live(old(zsets)[region], meta)] else old(zsets)
    {
      if region !in zsets { return []; }
      var members := zsets[region];
      ghost var expired: set<string> := {};
      es := [];
      ExceptNobody(members);
      var i := 0;
      while i < |members|
        invariant 0 <= i <= |members| && Reading(region, members, old(zsets), i, es, expired)
      {
        es, expired := ReadMember(region, members, i, es, old(zsets), expired);
        i := i + 1;
      }
      assert members[..i] == members;
      ExceptExpired(members, meta, expired);
    }

    method Remove(e: QueueEntry)
      modifies this
      ensures zsets == Removed(old(zsets), e)
      ensures meta == old(meta) - {e.playerId}
    {
      Zrem(e.region, e.playerId);
      meta := meta - {e.playerId};
    }
  }

  /** The entries of a pairing. */
  function MatchesOf(es: seq<QueueEntry>, ps: seq<Pair>): (r: seq<(QueueEntry, QueueEntry)>)
    requires forall a :: 0 <= a < |ps| ==> ps[a].i < |es| && ps[a].j < |es|
    ensures |r| == |ps|
  {
    seq(|ps|, a requires 0 <= a < |ps| => (es[ps[a].i], es[ps[a].j]))
  }

  /** The matches of one scan. */
  function Matches(es: seq<QueueEntry>, clock: seq<int>, cfg: Settings): (r: seq<(QueueEntry, QueueEntry)>)
    requires |clock| == |es|
    ensures |r| == |Greedy(QueueOf(es, clock, cfg))|
  {
    var q := QueueOf(es, clock, cfg);
    GreedyInRange(q);
    MatchesOf(es, Greedy(q))
  }

  /** One scan of a region: expired members are dropped, the matches are the greedy pairs of the
      live entries, and the matched players leave. */
  function ScanIn(q: QueueState, region: string, clock: seq<int>, cfg: Settings):
      (QueueState, seq<(QueueEntry, QueueEntry)>)
    requires |clock| == |Entries(MembersIn(q.zsets, region), q.meta)|
  {
    var read := if region in q.zsets then q.zsets[region := Live(q.zsets[region], q.meta)] else q.zsets;
    var matches := Matches(Entries(MembersIn(q.zsets, region), q.meta), clock, cfg);
    (QueueState(Leave(read, matches), q.meta - Paired(matches)), matches)
  }

  lemma GreedyInRange(q: Queue)
    requires Shape(q)
    ensures forall a :: 0 <= a < |Greedy(q)| ==> Greedy(q)[a].i < |q.elo| && Greedy(q)[a].j < |q.elo|
  {
    ScanPairs(q, {}, 0);
    assert forall a :: 0 <= a < |Greedy(q)| ==> Compatible(q, Greedy(q)[a]);
  }

  lemma NoMatches(es: seq<QueueEntry>, clock: seq<int>, cfg: Settings)
    requires |clock| == |es| < 2
    ensures Matches(es, clock, cfg) == []
  {
    var q := QueueOf(es, clock, cfg);
    assert Scan(q, {}, |es|) == [];
  }

  /** The sets after the players of the matches have been removed, match by match. */
  function Leave(zsets: map<string, seq<Member>>, ms: seq<(QueueEntry, QueueEntry)>): map<string, seq<Member>> {
    if ms == [] then zsets
    else
      var m := ms[|ms| - 1];
      Removed(Removed(Leave(zsets, ms[..|ms| - 1]), m.0), m.1)
  }

  /** The players of a list of matches whose metadata names a region. */
  function PairedIn(ms: seq<(QueueEntry, QueueEntry)>, region: string): set<string> {
    (set a | 0 <= a < |ms| && ms[a].0.region == region :: ms[a].0.playerId)
    + (set a | 0 <= a < |ms| && ms[a].1.region == region :: ms[a].1.playerId)
  }

  function Named(e: QueueEntry, region: string): set<string> {
    if e.region == region then {e.playerId} else {}
  }

  lemma PairedInMore(ms: seq<(QueueEntry, QueueEntry)>, m: (QueueEntry, QueueEntry), region: string)
    ensures PairedIn(ms + [m], region) == PairedIn(ms, region) + Named(m.0, region) + Named(m.1, region)
  {
    var all := ms + [m];
    assert all[|ms|] == m;
    assert forall a :: 0 <= a < |ms| ==> all[a] == ms[a];
    forall x | x in PairedIn(ms, region) + Named(m.0, region) + Named(m.1, region)
      ensures x in PairedIn(all, region)
    {
      if x in PairedIn(ms, region) {
        var a :| 0 <= a < |ms| && ((x == ms[a].0.playerId && ms[a].0.region == region)
                                   || (x == ms[a].1.playerId && ms[a].1.region == region));
        assert all[a] == ms[a];
      }
    }
  }

  lemma RemovedExactly(zsets: map<string, seq<Member>>, e: QueueEntry, region: string)
    ensures Removed(zsets, e).Keys == zsets.Keys
    ensures MembersIn(Removed(zsets, e), region) == Except(MembersIn(zsets, region), Named(e, region))
  {
    ExceptNobody(MembersIn(zsets, region));
  }

  /** A matched player leaves exactly the set of the region its metadata names. */
  lemma {:induction false} LeaveExactly(zsets: map<string, seq<Member>>, ms: seq<(QueueEntry, QueueEntry)>,
      region: string)
    ensures Leave(zsets, ms).Keys == zsets.Keys
    ensures MembersIn(Leave(zsets, ms), region) == Except(MembersIn(zsets, region), PairedIn(ms, region))
    decreases |ms|
  {
    if ms == [] {
      assert PairedIn(ms, region) == {};
      ExceptNobody(MembersIn(zsets, region));
    } else {
      var n := |ms| - 1;
      var base, gone, once := MembersIn(zsets, region), PairedIn(ms[..n], region), Leave(zsets, ms[..n]);
      LeaveExactly(zsets, ms[..n], region);
      RemovedExactly(once, ms[n].0, region);
      RemovedExactly(Removed(once, ms[n].0), ms[n].1, region);
      assert ms == ms[..n] + [ms[n]];
      PairedInMore(ms[..n], ms[n], region);
      ExceptTwice(base, gone, Named(ms[n].0, region));
      ExceptTwice(base, gone + Named(ms[n].0, region), Named(ms[n].1, region));
    }
  }

  /** The players of a list of matches. */
  function Paired(ms: seq<(QueueEntry, QueueEntry)>): set<string> {
    (set a | 0 <= a < |ms| :: ms[a].0.playerId) + (set a | 0 <= a < |ms| :: ms[a].1.playerId)
  }

  lemma PairedMore(ms: seq<(QueueEntry, QueueEntry)>, m: (QueueEntry, QueueEntry))
    ensures Paired(ms + [m]) == Paired(ms) + {m.0.playerId, m.1.playerId}
  {
    var all := ms + [m];
    assert all[|ms|] == m;
    assert forall a :: 0 <= a < |ms| ==> all[a] == ms[a];
    forall x | x in Paired(ms) + {m.0.playerId, m.1.playerId}
      ensures x in Paired(all)
    {
      if x in Paired(ms) {
        var a :| 0 <= a < |ms| && (x == ms[a].0.playerId || x == ms[a].1.playerId);
        assert x == all[a].0.playerId || x == all[a].1.playerId;
      }
    }
  }

  /** The players matched so far are those at the positions taken so far. */
  ghost predicate TakenAre(es: seq<QueueEntry>, matched: set<string>, taken: set<int>) {
    forall k :: 0 <= k < |es| ==> (es[k].playerId in matched <==> k in taken)
  }

  lemma TakenMore(es: seq<QueueEntry>, matched: set<string>, taken: set<int>, i: nat, j: nat)
    requires TakenAre(es, matched, taken) && DistinctPlayers(es) && i < j < |es|
    ensures TakenAre(es, matched + {es[i].playerId, es[j].playerId}, taken + {i, j})
  {
    forall k | 0 <= k < |es|
      ensures es[k].playerId in {es[i].playerId, es[j].playerId} <==> k in {i, j}
    {
      assert k < i ==> es[k].playerId != es[i].playerId;
      assert i < k ==> es[i].playerId != es[k].playerId;
      assert k < j ==> es[k].playerId != es[j].playerId;
      assert j < k ==> es[j].playerId != es[k].playerId;
    }
  }

  lemma MatchesMore(es: seq<QueueEntry>, clock: seq<int>, cfg: Settings, k: nat)
    requires |clock| == |es| && k < |Matches(es, clock, cfg)|
    ensures var p := Greedy(QueueOf(es, clock, cfg))[k];
            && p.i < |es| && p.j < |es|
            && Matches(es, clock, cfg)[..k + 1] == Matches(es, clock, cfg)[..k] + [(es[p.i], es[p.j])]
  {
    GreedyInRange(QueueOf(es, clock, cfg));
  }

  /** The first `done` greedy pairs are found; the rest is the scan from i on. */
  predicate Remaining(q: Queue, taken: set<int>, i: nat, done: nat)
    requires Shape(q) && i <= |q.elo|
  {
    done <= |Greedy(q)| && Greedy(q)[done..] == Scan(q, taken, i)
  }

  lemma NobodyTaken(q: Queue, taken: set<int>, i: nat, done: nat)
    requires Shape(q) && i < |q.elo| && Remaining(q, taken, i, done)
    requires i in taken || FirstPartner(q, taken, i, i + 1) == |q.elo|
    ensures Remaining(q, taken, i + 1, done)
  {
  }

  lemma PairTaken(q: Queue, taken: set<int>, i: nat, done: nat)
    requires Shape(q) && i < |q.elo| && Remaining(q, taken, i, done)
    requires i !in taken && FirstPartner(q, taken, i, i + 1) < |q.elo|
    ensures var j := FirstPartner(q, taken, i, i + 1);
            && done < |Greedy(q)| && Greedy(q)[done] == Pair(i, j)
            && Remaining(q, taken + {i, j}, i + 1, done + 1)
  {
    var j := FirstPartner(q, taken, i, i + 1);
    assert Scan(q, taken, i) == [Pair(i, j)] + Scan(q, taken + {i, j}, i + 1);
    assert Greedy(q)[done] == Greedy(q)[done..][0];
    assert Greedy(q)[done + 1..] == Greedy(q)[done..][1..];
  }

  class Matcher {
    const queue: MatchQueue
    const cfg: Settings

    constructor (q: MatchQueue, settings: Settings)
      ensures queue == q && cfg == settings
    {
      queue, cfg := q, settings;
    }

    /** The partner search of entry i: the first later entry that is unmatched and in range. */
    method FindPartner(es: seq<QueueEntry>, matched: set<string>, i: nat, range: int, ghost q: Queue,
        ghost taken: set<int>)
      returns (j: nat)
      requires i < |es| && Shape(q) && |q.elo| == |es| && range == q.range[i]
      requires forall k :: 0 <= k < |es| ==> q.elo[k] == es[k].elo
      requires TakenAre(es, matched, taken)
      ensures j == FirstPartner(q, taken, i, i + 1)
    {
      j := i + 1;
      while j < |es|
        invariant i < j <= |es|
        invariant FirstPartner(q, taken, i, i + 1) == FirstPartner(q, taken, i, j)
      {
        if es[j].playerId !in matched && Abs(es[i].elo - es[j].elo) <= range {
          return;
        }
        j := j + 1;
      }
    }

    /** The part of match creation that touches the queue: both players leave it. */
    method CreateMatch(a: QueueEntry, b: QueueEntry)
      modifies queue
      ensures queue.zsets == Removed(Removed(old(queue.zsets), a), b)
      ensures queue.meta == old(queue.meta) - {a.playerId, b.playerId}
    {
      queue.Remove(a);
      queue.Remove(b);
    }

    /** One scan of a region; clock[i] is the reading taken when entry i looks for a partner.
        The matches are the greedy pairs of the live entries, and their players leave the queue. */
    method ScanRegion(region: string, clock: seq<int>) returns (matches: seq<(QueueEntry, QueueEntry)>)
      requires DistinctIds(MembersIn(queue.zsets, region)) && MetaKeyed(queue.meta)
      requires |clock| == |Entries(MembersIn(queue.zsets, region), queue.meta)|
      modifies queue
      ensures (queue.Val(), matches) == ScanIn(old(queue.Val()), region, clock, cfg)
    {
      EntriesDistinct(MembersIn(queue.zsets, region), queue.meta);
      var es := queue.Dequeue(region);
      if |es| < 2 {
        NoMatches(es, clock, cfg);
        assert queue.meta - Paired([]) == queue.meta;
        return [];
      }
      matches := MatchEntries(es, clock);
    }

    /** Where a scan stands before entry i: the first greedy matches are made and their players
        are gone from the queue. */
    ghost predicate Standing(es: seq<QueueEntry>, clock: seq<int>, i: nat, matched: set<string>,
      matches: seq<(QueueEntry, QueueEntry)>, taken: set<int>, before: QueueState)
      requires |clock| == |es| && i <= |es|
      reads queue
    {
      && TakenAre(es, matched, taken)
      && Remaining(QueueOf(es, clock, cfg), taken, i, |matches|)
      && matches == Matches(es, clock, cfg)[..|matches|] && matched == Paired(matches)
      && queue.zsets == Leave(before.zsets, matches)
      && queue.meta == before.meta - matched
    }

    /** Entry i and its partner j become the next match. */
    method MatchPair(es: seq<QueueEntry>, clock: seq<int>, i: nat, j: nat, matched: set<string>,
      matches: seq<(QueueEntry, QueueEntry)>, ghost taken: set<int>, ghost before: QueueState)
      returns (matched': set<string>, matches': seq<(QueueEntry, QueueEntry)>)
      requires |clock| == |es| && i < j < |es| && DistinctPlayers(es)
      requires Standing(es, clock, i, matched, matches, taken, before)
      requires i !in taken && j == FirstPartner(QueueOf(es, clock, cfg), taken, i, i + 1)
      modifies queue
      ensures Standing(es, clock, i + 1, matched', matches', taken + {i, j}, before)
    {
      PairTaken(QueueOf(es, clock, cfg), taken, i, |matches|);
      MatchesMore(es, clock, cfg, |matches|);
      PairedMore(matches, (es[i], es[j]));
      TakenMore(es, matched, taken, i, j);
      CreateMatch(es[i], es[j]);
      matched' := matched + {es[i].playerId, es[j].playerId};
      matches' := matches + [(es[i], es[j])];
      assert matches'[..|matches|] == matches;
    }

    /** The turn of entry i: nothing if it is matched already, else the search for a partner. */
    method MatchEntry(es: seq<QueueEntry>, clock: seq<int>, i: nat, matched: set<string>,
      matches: seq<(QueueEntry, QueueEntry)>, ghost taken: set<int>, ghost before: QueueState)
      returns (matched': set<string>, matches': seq<(QueueEntry, QueueEntry)>, ghost taken': set<int>)
      requires |clock| == |es| && i < |es| && DistinctPlayers(es)
      requires Standing(es, clock, i, matched, matches, taken, before)
      modifies queue
      ensures Standing(es, clock, i + 1, matched', matches', taken', before)
    {
      matched', matches', taken' := matched, matches, taken;
      ghost var q := QueueOf(es, clock, cfg);
      if es[i].playerId in matched {
        NobodyTaken(q, taken, i, |matches|);
        return;
      }
      var j := FindPartner(es, matched, i, EloRange(es[i], clock[i], cfg), q, taken);
      if j == |es| {
        NobodyTaken(q, taken, i, |matches|);
      } else {
        matched', matches' := MatchPair(es, clock, i, j, matched, matches, taken, before);
        taken' := taken + {i, j};
      }
    }

    /** The outer loop of the scan. */
    method MatchEntries(es: seq<QueueEntry>, clock: seq<int>) returns (matches: seq<(QueueEntry, QueueEntry)>)
      requires |clock| == |es| && DistinctPlayers(es)
      modifies queue
      ensures matches == Matches(es, clock, cfg)
      ensures queue.zsets == Leave(old(queue.zsets), matches)
      ensures queue.meta == old(queue.meta) - Paired(matches)
    {
      ghost var taken: set<int> := {};
      var matched: set<string> := {};
      matches := [];
      var i := 0;
      while i < |es|
        invariant 0 <= i <= |es|
        invariant Standing(es, clock, i, matched, matches, taken, old(queue.Val()))
      {
        matched, matches, taken := MatchEntry(es, clock, i, matched, matches, taken, old(queue.Val()));
        i := i + 1;
      }
    }
  }

  // ----- What a scan means for the players -----

  datatype Fate = StillQueued | InOneMatch | Expired

  predicate InMatch(ms: seq<(QueueEntry, QueueEntry)>, a: nat, id: string)
    requires a < |ms|
  {
    ms[a].0.playerId == id || ms[a].1.playerId == id
  }

  ghost predicate InNoMatch(ms: seq<(QueueEntry, QueueEntry)>, id: string) {
    forall a :: 0 <= a < |ms| ==> !InMatch(ms, a, id)
  }

  ghost predicate InExactlyOneMatch(ms: seq<(QueueEntry, QueueEntry)>, id: string) {
    exists a :: 0 <= a < |ms| && InMatch(ms, a, id) && forall b :: 0 <= b < |ms| && InMatch(ms, b, id) ==> b == a
  }

  /** What became of member m of a region in a scan that left `after` in its set. A matched player
      leaves that set exactly when its metadata names that region. */
  ghost predicate Became(m: Member, region: string, fate: Fate, meta: map<string, QueueEntry>,
    matches: seq<(QueueEntry, QueueEntry)>, after: seq<Member>, metaAfter: map<string, QueueEntry>)
  {
    match fate
    case StillQueued => m in after && m.playerId in metaAfter && InNoMatch(matches, m.playerId)
    case InOneMatch =>
      && m.playerId in meta && m.playerId !in metaAfter && InExactlyOneMatch(matches, m.playerId)
      && (m !in after <==> meta[m.playerId].region == region)
    case Expired => m !in after && m.playerId !in meta && InNoMatch(matches, m.playerId)
  }

  lemma InPairedExactly(ms: seq<(QueueEntry, QueueEntry)>, id: string)
    ensures id in Paired(ms) <==> !InNoMatch(ms, id)
  {
    if a :| 0 <= a < |ms| && InMatch(ms, a, id) {
      assert ms[a].0.playerId in Paired(ms) && ms[a].1.playerId in Paired(ms);
    }
    if id in Paired(ms) {
      var a :| 0 <= a < |ms| && (ms[a].0.playerId == id || ms[a].1.playerId == id);
      assert InMatch(ms, a, id);
    }
  }

  lemma OnePairTouches(q: Queue, ps: seq<Pair>, a: nat, b: nat, x: nat)
    requires Shape(q) && Matching(q, ps) && a < |ps| && b < |ps| && Touches(ps[a], x) && Touches(ps[b], x)
    ensures a == b
  {
  }

  lemma MatchedOnce(es: seq<QueueEntry>, ps: seq<Pair>, q: Queue, id: string)
    requires Shape(q) && |q.elo| == |es| && Matching(q, ps) && DistinctPlayers(es)
    requires forall c :: 0 <= c < |ps| ==> ps[c].i < |es| && ps[c].j < |es|
    requires !InNoMatch(MatchesOf(es, ps), id)
    ensures InExactlyOneMatch(MatchesOf(es, ps), id)
  {
    var ms := MatchesOf(es, ps);
    var a :| 0 <= a < |ms| && InMatch(ms, a, id);
    var x := if es[ps[a].i].playerId == id then ps[a].i else ps[a].j;
    forall b | 0 <= b < |ms| && InMatch(ms, b, id)
      ensures b == a
    {
      var y := if es[ps[b].i].playerId == id then ps[b].i else ps[b].j;
      assert x == y;
      OnePairTouches(q, ps, a, b, x);
    }
  }

  lemma EntriesAreMeta(ms: seq<Member>, meta: map<string, QueueEntry>)
    requires MetaKeyed(meta)
    ensures forall k :: 0 <= k < |Entries(ms, meta)| ==>
              var e := Entries(ms, meta)[k]; e.playerId in meta && meta[e.playerId] == e
  {
    forall k | 0 <= k < |Entries(ms, meta)|
      ensures var e := Entries(ms, meta)[k]; e.playerId in meta && meta[e.playerId] == e
    {
      EntriesOfLive(ms, meta, k);
    }
  }

  /** Among matches of entries that are the players' metadata, the region a player leaves is the one
      its metadata names. */
  lemma PairedInExactly(matches: seq<(QueueEntry, QueueEntry)>, meta: map<string, QueueEntry>, region: string,
      id: string)
    requires forall a :: 0 <= a < |matches| ==>
               && matches[a].0.playerId in meta && meta[matches[a].0.playerId] == matches[a].0
               && matches[a].1.playerId in meta && meta[matches[a].1.playerId] == matches[a].1
    ensures id in Paired(matches) ==> id in meta
    ensures id in PairedIn(matches, region) <==> id in Paired(matches) && meta[id].region == region
  {
    if id in Paired(matches) {
      var a :| 0 <= a < |matches| && (id == matches[a].0.playerId || id == matches[a].1.playerId);
    }
  }

  /** Every member of a scanned region is afterwards exactly one of: still queued with its metadata,
      in exactly one match, or dropped because its metadata had expired; and a matched one is gone
      from the set if and only if its metadata names the region. */
  lemma EveryPlayerAccountedFor(q: QueueState, region: string, clock: seq<int>, cfg: Settings, m: Member)
      returns (fate: Fate)
    requires DistinctIds(MembersIn(q.zsets, region)) && MetaKeyed(q.meta) && m in MembersIn(q.zsets, region)
    requires |clock| == |Entries(MembersIn(q.zsets, region), q.meta)|
    ensures var (q', matches) := ScanIn(q, region, clock, cfg);
            Became(m, region, fate, q.meta, matches, MembersIn(q'.zsets, region), q'.meta)
  {
    var ms, meta := MembersIn(q.zsets, region), q.meta;
    EntriesDistinct(ms, meta);
    EntriesAreMeta(ms, meta);
    var es := Entries(ms, meta);
    var g := QueueOf(es, clock, cfg);
    var matches := Matches(es, clock, cfg);
    ScanPairs(g, {}, 0);
    GreedyInRange(g);
    LiveMember(ms, meta, m);
    LeaveExactly(q.zsets[region := Live(ms, meta)], matches, region);
    ExceptMember(Live(ms, meta), PairedIn(matches, region), m);
    PairedInExactly(matches, meta, region, m.playerId);
    InPairedExactly(matches, m.playerId);
    if m.playerId !in meta {
      fate := Expired;
    } else if m.playerId in Paired(matches) {
      MatchedOnce(es, Greedy(g), g, m.playerId);
      fate := InOneMatch;
    } else {
      fate := StillQueued;
    }
  }

  /** When ratings are scores the matches of a scan are neighbours in rating, and when moreover reach
      grows along the queue (as with equal ranges) no pairing of its players has more matches. */
  lemma ScanOfConsistentQueue(ms: seq<Member>, meta: map<string, QueueEntry>, clock: seq<int>, cfg: Settings,
      other: seq<Pair>)
    requires ByScore(ms) && RatingsAreScores(ms, meta) && |clock| == |Entries(ms, meta)|
    requires Matching(QueueOf(Entries(ms, meta), clock, cfg), other)
    ensures var q := QueueOf(Entries(ms, meta), clock, cfg);
            && Greedy(q) == Linear(q, 0)
            && |other| <= 2 * |Matches(Entries(ms, meta), clock, cfg)|
            && (ReachGrows(q) ==> |other| <= |Matches(Entries(ms, meta), clock, cfg)|)
  {
    EntriesOrdered(ms, meta);
    var q := QueueOf(Entries(ms, meta), clock, cfg);
    GreedyInRange(q);
    GreedyIsLinear(q);
    GreedyHalfOfAny(q, other);
    if ReachGrows(q) {
      GreedyIsMaximum(q, other);
    }
  }
}
