/** The relay's per-match input log. */
module InputLog {
  import opened Protocol

  datatype FrameEntry = FrameEntry(frame: int, p1: nat, p2: nat)

  /** One accepted input: who sent it, for which frame. */
  datatype Event = Event(slot: Slot, frame: int, input: nat)

  datatype LogState = LogState(entries: seq<FrameEntry>, p1Latest: nat, p2Latest: nat)

  const EMPTY := LogState([], 0, 0)

  // ----- What the log should be: the run compression of the history -----

  /** The last input of a player, 0 before the first. */
  function Latest(h: seq<Event>, slot: Slot): nat {
    if h == [] then 0
    else if h[|h| - 1].slot == slot then h[|h| - 1].input
    else Latest(h[..|h| - 1], slot)
  }

  /** Event i is the last of a maximal run of events for one frame. */
  predicate EndsRun(h: seq<Event>, i: nat)
    requires i < |h|
  {
    i + 1 == |h| || h[i].frame != h[i + 1].frame
  }

  /** Both players' latest inputs just after event i. */
  function EntryAfter(h: seq<Event>, i: nat): FrameEntry
    requires i < |h|
  {
    FrameEntry(h[i].frame, Latest(h[..i + 1], 0), Latest(h[..i + 1], 1))
  }

  /** One entry for each run that ends before event k. */
  function Compressed(h: seq<Event>, k: nat): seq<FrameEntry>
    requires k <= |h|
  {
    if k == 0 then []
    else Compressed(h, k - 1) + (if EndsRun(h, k - 1) then [EntryAfter(h, k - 1)] else [])
  }

  // ----- What the code does -----

  /** Update of the last entry when the frame repeats, else a new entry that carries the
      other player's latest input forward. */
  function Record(s: LogState, e: Event): LogState {
    var p1 := if e.slot == 0 then e.input else s.p1Latest;
    var p2 := if e.slot == 1 then e.input else s.p2Latest;
    var n := |s.entries|;
    if n > 0 && s.entries[n - 1].frame == e.frame then
      var last := s.entries[n - 1];
      var edited := if e.slot == 0 then last.(p1 := e.input) else last.(p2 := e.input);
      LogState(s.entries[n - 1 := edited], p1, p2)
    else LogState(s.entries + [FrameEntry(e.frame, p1, p2)], p1, p2)
  }

  function RecordAll(h: seq<Event>): LogState {
    if h == [] then EMPTY else Record(RecordAll(h[..|h| - 1]), h[|h| - 1])
  }

  class InputLog {
    var entries: seq<FrameEntry>
    var p1Latest: nat
    var p2Latest: nat

    function Val(): LogState
      reads this
    {
      LogState(entries, p1Latest, p2Latest)
    }

    constructor ()
      ensures Val() == EMPTY
    {
      entries, p1Latest, p2Latest := [], 0, 0;
    }

    method RecordP1(frame: int, input: nat)
      modifies this
      ensures Val() == Record(old(Val()), Event(0, frame, input))
    {
      p1Latest := input;
      Upsert(frame, input, -1);
    }

    method RecordP2(frame: int, input: nat)
      modifies this
      ensures Val() == Record(old(Val()), Event(1, frame, input))
    {
      p2Latest := input;
      Upsert(frame, -1, input);
    }

    /** A negative value marks the player who sent nothing. */
    method Upsert(frame: int, p1: int, p2: int)
      modifies this`entries
      ensures var n := |old(entries)|;
              if n > 0 && old(entries)[n - 1].frame == frame then
                entries == old(entries)[n - 1 := FrameEntry(frame,
                  if p1 >= 0 then p1 else old(entries)[n - 1].p1,
                  if p2 >= 0 then p2 else old(entries)[n - 1].p2)]
              else entries == old(entries) + [FrameEntry(frame,
                  if p1 >= 0 then p1 else p1Latest,
                  if p2 >= 0 then p2 else p2Latest)]
    {
      var n := |entries|;
      if n > 0 && entries[n - 1].frame == frame {
        if p1 >= 0 { entries := entries[n - 1 := entries[n - 1].(p1 := p1)]; }
        if p2 >= 0 { entries := entries[n - 1 := entries[n - 1].(p2 := p2)]; }
        assert n == |entries|;
      } else {
        entries := entries + [FrameEntry(frame,
          if p1 >= 0 then p1 else p1Latest,
          if p2 >= 0 then p2 else p2Latest)];
      }
    }
  }

  // ----- The log is the run compression -----

  lemma {:induction false} CompressedPrefix(h: seq<Event>, e: Event, k: nat)
    requires k < |h|
    ensures Compressed(h + [e], k) == Compressed(h, k)
    decreases k
  {
    if k > 0 {
      CompressedPrefix(h, e, k - 1);
      assert (h + [e])[..k] == h[..k];
    }
  }

  /** After any history the log holds one entry per maximal run of equal-frame events, each with
      both players' latest inputs at the end of that run, and the two carry-forward fields hold
      the players' latest inputs. */
  lemma {:induction false} LogIsRunCompression(h: seq<Event>)
    ensures RecordAll(h) == LogState(Compressed(h, |h|), Latest(h, 0), Latest(h, 1))
    decreases |h|
  {
    if h != [] {
      var n := |h| - 1;
      var g, e := h[..n], h[n];
      LogIsRunCompression(g);
      assert h == g + [e] && h[..n + 1] == h;
      if n > 0 {
        CompressedPrefix(g, e, n - 1);
        assert g[..n] == g && h[..n] == g;
        assert Compressed(g, n) == Compressed(g, n - 1) + [EntryAfter(g, n - 1)];
      }
    }
  }

  /** The last entry always carries both players' latest inputs. */
  lemma LastEntryIsLatest(h: seq<Event>)
    requires h != []
    ensures var es := RecordAll(h).entries;
            es != [] && es[|es| - 1] == FrameEntry(h[|h| - 1].frame, Latest(h, 0), Latest(h, 1))
  {
    LogIsRunCompression(h);
    assert h[..|h|] == h;
  }

  lemma {:induction false} CompressedAlternates(h: seq<Event>, k: nat)
    requires k <= |h|
    ensures var es := Compressed(h, k);
            && (forall i :: 0 < i < |es| ==> es[i - 1].frame != es[i].frame)
            && (0 < k < |h| && es != [] && !EndsRun(h, k - 1) ==> es[|es| - 1].frame != h[k].frame)
            && (k > 0 && EndsRun(h, k - 1) ==> es != [] && es[|es| - 1].frame == h[k - 1].frame)
    decreases k
  {
    if k > 0 {
      CompressedAlternates(h, k - 1);
    }
  }

  /** Adjacent entries are for different frames. */
  lemma AdjacentFramesDiffer(h: seq<Event>)
    ensures var es := RecordAll(h).entries; forall i :: 0 < i < |es| ==> es[i - 1].frame != es[i].frame
  {
    LogIsRunCompression(h);
    CompressedAlternates(h, |h|);
  }
}
