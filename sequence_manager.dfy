// The sequence manager's bookkeeping between the document and the
// sequencer: the queues of segments added to and removed from the
// composition, the refresh ids it holds on each segment and trigger
// segment, the refresh pass that turns those into mapper additions,
// modifications and deletions, the pointer moves of the transport buttons,
// the MIDI reset burst, and the order of mappers in an export iterator.
module SequenceManagers {
  import opened Base
  import opened MappedEvents
  import opened Compositions
  import opened Documents
  import opened Sequencers

  // ----- ascending order of segment ids, the iteration order of the maps -----

  lemma {:induction false} LeastExists(s: set<int>)
    requires s != {}
    ensures exists m :: m in s && forall x :: x in s ==> m <= x
    decreases |s|
  {
    HasElement(s);
    var y :| y in s;
    if s != {y} {
      LeastExists(s - {y});
      var m :| m in s - {y} && forall x :: x in s - {y} ==> m <= x;
      var least := if y <= m then y else m;
      assert forall x :: x in s ==> x == y || x in s - {y};
      assert least in s && forall x :: x in s ==> least <= x;
    } else {
      assert y in s && forall x :: x in s ==> y <= x;
    }
  }

  /** The least element of `s`. */
  ghost function Least(s: set<int>): int
    requires s != {}
    decreases |s|, 1
  {
    HasElement(s);
    var y :| y in s;
    LeastWithout(s, y)
  }

  /** The least element of `s` below `y`, the candidate `Least` compares
      against. */
  ghost function LeastWithout(s: set<int>, y: int): int
    requires y in s
    decreases |s|, 0
  {
    if s == {y} then y
    else
      var m := Least(s - {y});
      if y <= m then y else m
  }

  lemma {:induction false} LeastIsLeast(s: set<int>)
    requires s != {}
    ensures Least(s) in s && forall x :: x in s ==> Least(s) <= x
    decreases |s|
  {
    forall y | y in s
      ensures LeastWithout(s, y) in s && forall x :: x in s ==> LeastWithout(s, y) <= x
    {
      if s != {y} {
        LeastIsLeast(s - {y});
        assert forall x :: x in s ==> x == y || x in s - {y};
      }
    }
  }

  /** The elements of `s` in increasing order. */
  ghost function Ascending(s: set<int>): seq<int>
    decreases |s|
  {
    if s == {} then [] else LeastIsLeast(s); [Least(s)] + Ascending(s - {Least(s)})
  }

  /** `Ascending` lists every element exactly once, in strictly increasing
      order. */
  lemma {:induction false} AscendingSpec(s: set<int>)
    ensures forall x :: x in Ascending(s) <==> x in s
    ensures forall i, j :: 0 <= i < j < |Ascending(s)| ==> Ascending(s)[i] < Ascending(s)[j]
    ensures |Ascending(s)| == |s|
    decreases |s|
  {
    if s != {} {
      var m := Least(s);
      LeastIsLeast(s);
      AscendingSpec(s - {m});
      var r := Ascending(s);
      assert r == [m] + Ascending(s - {m});
      forall i, j | 0 <= i < j < |r|
        ensures r[i] < r[j]
      {
        if i == 0 {
          assert r[j] in s - {m};
        }
      }
    }
  }

  /** What a walk in `Ascending` order relies on: it visits the elements of
      `s`, and none twice. */
  lemma AscendingVisitsOnce(s: set<int>)
    ensures forall x :: x in Ascending(s) <==> x in s
    ensures Distinct(Ascending(s))
  {
    AscendingSpec(s);
  }

  /** Walks the keys of an ordered map from the least up. */
  method InOrder(s: set<int>) returns (r: seq<int>)
    ensures r == Ascending(s)
  {
    r := [];
    var rest := s;
    while rest != {}
      invariant rest <= s
      invariant Ascending(s) == r + Ascending(rest)
      decreases |rest|
    {
      LeastExists(rest);
      var m :| m in rest && forall x :: x in rest ==> m <= x;
      LeastIsLeast(rest);
      assert Ascending(rest) == [m] + Ascending(rest - {m});
      r := r + [m];
      rest := rest - {m};
    }
  }

  // ----- queues -----

  /** The segments in a queue. */
  function Elements(q: seq<SegmentId>): (r: set<SegmentId>)
  {
    if q == [] then {} else Elements(q[..|q| - 1]) + {q[|q| - 1]}
  }

  lemma {:induction false} ElementsSpec(q: seq<SegmentId>)
    ensures forall x :: x in Elements(q) <==> x in q
  {
    if q != [] {
      ElementsSpec(q[..|q| - 1]);
      assert q == q[..|q| - 1] + [q[|q| - 1]];
    }
  }

  /** `std::find` followed by `erase`: the first occurrence of `s` removed. */
  function RemoveFirst(q: seq<SegmentId>, s: SegmentId): seq<SegmentId>
  {
    if q == [] then []
    else if q[0] == s then q[1..]
    else [q[0]] + RemoveFirst(q[1..], s)
  }

  /** Removing the first occurrence takes exactly one copy of `s` out of the
      queue (none when it is not there). */
  lemma {:induction false} RemoveFirstCount(q: seq<SegmentId>, s: SegmentId)
    ensures multiset(RemoveFirst(q, s)) == multiset(q) - multiset{s}
  {
    if q != [] {
      assert q == [q[0]] + q[1..];
      assert multiset(q) == multiset{q[0]} + multiset(q[1..]);
      if q[0] != s {
        RemoveFirstCount(q[1..], s);
        var r := RemoveFirst(q[1..], s);
        assert multiset([q[0]] + r) == multiset{q[0]} + multiset(r);
      }
    }
  }

  /** A queue without `s` is left as it is, and one with `s` gets one
      shorter. */
  lemma {:induction false} RemoveFirstLength(q: seq<SegmentId>, s: SegmentId)
    ensures s !in q ==> RemoveFirst(q, s) == q
    ensures s in q ==> |RemoveFirst(q, s)| == |q| - 1
  {
    if q != [] && q[0] != s {
      RemoveFirstLength(q[1..], s);
      assert s in q ==> s in q[1..];
      assert q == [q[0]] + q[1..];
    }
  }

  /** Removing the first occurrence keeps every other segment in its
      order: the queue is what stood before and after that occurrence. */
  lemma {:induction false} RemoveFirstKeepsOrder(q: seq<SegmentId>, s: SegmentId, i: int)
    requires 0 <= i < |q| && q[i] == s && s !in q[..i]
    ensures RemoveFirst(q, s) == q[..i] + q[i + 1..]
  {
    if i > 0 {
      assert q[0] == q[..i][0];
      assert q[1..][..i - 1] == q[1..i];
      RemoveFirstKeepsOrder(q[1..], s, i - 1);
      assert q[..i] == [q[0]] + q[1..][..i - 1];
      assert q[i + 1..] == q[1..][i..];
    }
  }

  // ----- transport buttons -----

  /** `CLOCKS_PER_SEC` on POSIX systems. */
  const ClocksPerSec: int := 1000000

  /** `(now - lastRewoundAt) * 1000 / CLOCKS_PER_SEC`, truncating. */
  function ElapsedMs(now: int, lastRewoundAt: int): int
  {
    CDiv((now - lastRewoundAt) * 1000, ClocksPerSec)
  }

  /** The bar `rewind` goes to: the start of the bar before `position` (so a
      pointer on a bar line goes back a whole bar), or of the bar before that
      when playing, the last rewind was at most 200 ms ago, and the pointer
      is at most half-way through the bar. */
  function RewindBar(position: TimeT, barRange: TimeT -> (TimeT, TimeT), playing: bool, elapsed: int): TimeT
  {
    var bar := barRange(position - 1);
    var halfway := bar.0 + CDiv(bar.1 - bar.0, 2);
    if playing && 0 <= elapsed <= 200 && position <= halfway then barRange(bar.0 - 1).0 else bar.0
  }

  /** Where `rewind` puts the pointer: the bar start, but never before the
      start marker. */
  function RewindTarget(position: TimeT, startMarker: TimeT, barRange: TimeT -> (TimeT, TimeT),
                        playing: bool, elapsed: int): (t: TimeT)
    ensures t >= startMarker
    ensures t == startMarker || t == RewindBar(position, barRange, playing, elapsed)
  {
    var bar := RewindBar(position, barRange, playing, elapsed);
    if bar < startMarker then startMarker else bar
  }

  /** Bars tile the timeline: each time lies in the bar `barRange` returns. */
  ghost predicate BarsCover(barRange: TimeT -> (TimeT, TimeT))
  {
    forall t :: barRange(t).0 <= t < barRange(t).1
  }

  /** With bars that tile the timeline, `rewind` always moves the pointer
      back (or to the start marker), and the extra bar is taken exactly under
      the three conditions, landing strictly before the first candidate. */
  lemma RewindMovesBack(position: TimeT, startMarker: TimeT, barRange: TimeT -> (TimeT, TimeT),
                        playing: bool, elapsed: int)
    requires BarsCover(barRange)
    ensures RewindBar(position, barRange, playing, elapsed) < position
    ensures startMarker < position ==> RewindTarget(position, startMarker, barRange, playing, elapsed) < position
    ensures var bar := barRange(position - 1);
      (RewindBar(position, barRange, playing, elapsed) < bar.0) <==>
      (playing && 0 <= elapsed <= 200 && position <= bar.0 + CDiv(bar.1 - bar.0, 2))
  {
    var bar := barRange(position - 1);
    assert bar.0 <= position - 1;
    var prev := barRange(bar.0 - 1);
    assert prev.0 <= bar.0 - 1;
  }

  /** Where `fastforward` puts the pointer: the end of the current bar, but
      never past the end marker. */
  function FastforwardTarget(position: TimeT, endMarker: TimeT, barEnd: TimeT -> TimeT): (t: TimeT)
    ensures t <= endMarker
    ensures t == endMarker || t == barEnd(position)
  {
    var newPosition := barEnd(position);
    if newPosition > endMarker then endMarker else newPosition
  }

  /** With bar ends after the time they are asked for, `fastforward` moves
      the pointer forward whenever it is before the end marker. */
  lemma FastforwardMovesForward(position: TimeT, endMarker: TimeT, barEnd: TimeT -> TimeT)
    requires barEnd(position) > position && position < endMarker
    ensures position < FastforwardTarget(position, endMarker, barEnd)
  {
  }

  // ----- the reset burst and the export iterator -----

  /** The event `resetMidiNetwork` sends on channel `i` of the first device. */
  function ResetEvent(i: int): MappedEvent
  {
    SimpleMappedEvent(MidiInstrumentBase + i, MidiController, MidiSystemReset, 0)
  }

  /** The 16 events of the reset burst, one per instrument of the first MIDI
      device, every one a controller event carrying `MIDI_SYSTEM_RESET`. */
  method ResetEvents() returns (events: seq<MappedEvent>)
    ensures |events| == 16
    ensures forall i :: 0 <= i < 16 ==> events[i] == ResetEvent(i)
    ensures forall i :: 0 <= i < 16 ==>
      events[i].instrument == MidiInstrumentBase + i && events[i].eventType == MidiController &&
      events[i].data1 == MidiSystemReset && events[i].data2 == 0
  {
    events := [];
    var i := 0;
    while i < 16
      invariant 0 <= i <= 16 && |events| == i
      invariant forall j :: 0 <= j < i ==> events[j] == ResetEvent(j)
    {
      events := events + [ResetEvent(i)];
      i := i + 1;
    }
  }

  /** What an export iterator is given, in order. */
  datatype MetaEntry = TempoMapper | TimeSigMapper | MarkerMapper | SegmentMapperOf(segment: SegmentId)

  function MapperEntries(segs: seq<SegmentId>): (r: seq<MetaEntry>)
    ensures |r| == |segs|
    ensures forall i :: 0 <= i < |segs| ==> r[i] == SegmentMapperOf(segs[i])
  {
    if segs == [] then [] else [SegmentMapperOf(segs[0])] + MapperEntries(segs[1..])
  }

  // ----- the manager -----

  /** What a notification to the composition mapper and the sequencer
      does to a segment's mapper. */
  datatype CallKind = Add | Modify | Delete

  datatype MapperCall = MapperCall(kind: CallKind, segment: SegmentId)

  /** One notification of `kind` per segment of `q`, in order. */
  function Calls(kind: CallKind, q: seq<SegmentId>): seq<MapperCall>
  {
    if q == [] then [] else Calls(kind, q[..|q| - 1]) + [MapperCall(kind, q[|q| - 1])]
  }

  lemma {:induction false} CallsSpec(kind: CallKind, q: seq<SegmentId>)
    ensures |Calls(kind, q)| == |q|
    ensures forall i :: 0 <= i < |q| ==> Calls(kind, q)[i] == MapperCall(kind, q[i])
  {
    if q != [] {
      CallsSpec(kind, q[..|q| - 1]);
    }
  }

  lemma CallsAppend(kind: CallKind, q: seq<SegmentId>, s: SegmentId)
    ensures Calls(kind, q + [s]) == Calls(kind, q) + [MapperCall(kind, s)]
  {
    assert (q + [s])[..|q|] == q;
  }

  /** The segments of the trigger records. */
  function TriggerSegmentsOf(recs: seq<TriggerSegmentRec>): set<SegmentId>
  {
    set i | 0 <= i < |recs| :: recs[i].segment
  }

  lemma TriggerSegmentsOfLast(recs: seq<TriggerSegmentRec>)
    requires recs != []
    ensures TriggerSegmentsOf(recs) == TriggerSegmentsOf(recs[..|recs| - 1]) + {recs[|recs| - 1].segment}
  {
    var n := |recs| - 1;
    forall x | x in TriggerSegmentsOf(recs)
      ensures x in TriggerSegmentsOf(recs[..n]) + {recs[n].segment}
    {
      var i :| 0 <= i < |recs| && recs[i].segment == x;
      if i < n {
        assert recs[..n][i] == recs[i];
      }
    }
    forall x | x in TriggerSegmentsOf(recs[..n])
      ensures x in TriggerSegmentsOf(recs)
    {
      var i :| 0 <= i < n && recs[..n][i].segment == x;
      assert recs[i] == recs[..n][i];
    }
  }

  /** No segment is the target of two trigger records: each trigger record
      of the composition owns its segment. */
  predicate DistinctTriggers(recs: seq<TriggerSegmentRec>)
  {
    forall i, j :: 0 <= i < j < |recs| ==> recs[i].segment != recs[j].segment
  }

  /** A trigger segment needs a refresh when the manager holds no id on it
      (the new id starts out flagged) or the flag under the held id is set. */
  predicate TriggerNeedsRefresh(s: SegmentId, held: map<SegmentId, int>, flags: map<SegmentId, seq<bool>>)
  {
    s !in held || (0 <= held[s] < |FlagsOf(flags, s)| && FlagsOf(flags, s)[held[s]])
  }

  /** The runtime ids referenced by the trigger segments that need a refresh. */
  function Referenced(recs: seq<TriggerSegmentRec>, held: map<SegmentId, int>, flags: map<SegmentId, seq<bool>>): set<int>
  {
    if recs == [] then {}
    else
      var last := recs[|recs| - 1];
      Referenced(recs[..|recs| - 1], held, flags) +
      (if TriggerNeedsRefresh(last.segment, held, flags) then last.references else {})
  }

  /** A runtime id is gathered exactly when some trigger record needing a
      refresh refers to it. */
  lemma {:induction false} ReferencedSpec(recs: seq<TriggerSegmentRec>, held: map<SegmentId, int>,
                                          flags: map<SegmentId, seq<bool>>, rid: int)
    ensures rid in Referenced(recs, held, flags) <==>
      exists i :: 0 <= i < |recs| && rid in recs[i].references && TriggerNeedsRefresh(recs[i].segment, held, flags)
  {
    if recs != [] {
      var n := |recs| - 1;
      ReferencedSpec(recs[..n], held, flags, rid);
      if rid in Referenced(recs, held, flags) && rid !in Referenced(recs[..n], held, flags) {
        assert rid in recs[n].references && TriggerNeedsRefresh(recs[n].segment, held, flags);
      }
      if exists i :: 0 <= i < |recs| && rid in recs[i].references && TriggerNeedsRefresh(recs[i].segment, held, flags) {
        var i :| 0 <= i < |recs| && rid in recs[i].references && TriggerNeedsRefresh(recs[i].segment, held, flags);
        if i < n {
          assert recs[..n][i] == recs[i];
        }
      }
    }
  }

  /** One turn of the trigger loop of `refresh` as written: the held id of
      `s`, or a new one (whose flag starts out set); then the flag under that
      id is read and cleared. The result is the flags afterwards, the id, and
      whether the flag was set. */
  function TriggerVisit(f: map<SegmentId, seq<bool>>, held: map<SegmentId, int>, s: SegmentId)
    : (map<SegmentId, seq<bool>>, int, bool)
  {
    var id := if s in held then held[s] else |FlagsOf(f, s)|;
    var f1 := if s in held then f else f[s := FlagsOf(f, s) + [true]];
    var needs := 0 <= id < |FlagsOf(f1, s)| && FlagsOf(f1, s)[id];
    (if needs then f1[s := Clear(FlagsOf(f1, s), id)] else f1, id, needs)
  }

  /** The trigger loop of `refresh` as written: the flags afterwards, the new
      trigger map, and the runtime ids gathered. */
  function TriggerPass(f: map<SegmentId, seq<bool>>, held: map<SegmentId, int>, recs: seq<TriggerSegmentRec>)
    : (map<SegmentId, seq<bool>>, map<SegmentId, int>, set<int>)
  {
    if recs == [] then (f, map[], {})
    else
      var n := |recs| - 1;
      var before := TriggerPass(f, held, recs[..n]);
      var v := TriggerVisit(before.0, held, recs[n].segment);
      (v.0, before.1[recs[n].segment := v.1], before.2 + if v.2 then recs[n].references else {})
  }

  lemma TriggerPassStep(f: map<SegmentId, seq<bool>>, held: map<SegmentId, int>, recs: seq<TriggerSegmentRec>, i: int)
    requires 0 <= i < |recs|
    ensures var before := TriggerPass(f, held, recs[..i]);
      var v := TriggerVisit(before.0, held, recs[i].segment);
      TriggerPass(f, held, recs[..i + 1]) ==
        (v.0, before.1[recs[i].segment := v.1], before.2 + if v.2 then recs[i].references else {})
  {
    assert recs[..i + 1][..i] == recs[..i];
  }

  /** A trigger visit only clears flags or hands out a new id, and leaves the
      id it returns valid and clear. */
  lemma TriggerVisitSpec(f: map<SegmentId, seq<bool>>, held: map<SegmentId, int>, s: SegmentId)
    requires HeldValid(held, f)
    ensures var v := TriggerVisit(f, held, s);
      OnlyClearsOrAppends(f, v.0) && 0 <= v.1 < |FlagsOf(v.0, s)| && !FlagsOf(v.0, s)[v.1]
  {
    var v := TriggerVisit(f, held, s);
    var f1 := if s in held then f else f[s := FlagsOf(f, s) + [true]];
    if s !in held {
      AppendIsSuch(f, s);
    } else {
      assert OnlyClearsOrAppends(f, f1) by {
        forall t ensures ClearsOrAppends(FlagsOf(f, t), FlagsOf(f1, t)) { }
      }
    }
    if v.2 {
      ClearIsSuch(f1, s, v.1);
    } else {
      assert OnlyClearsOrAppends(f1, v.0) by {
        forall t ensures ClearsOrAppends(FlagsOf(f1, t), FlagsOf(v.0, t)) { }
      }
    }
    OnlyClearsOrAppendsTrans(f, f1, v.0);
  }

  /** A trigger visit keeps the id held on the segment, reports a refresh
      exactly when the segment needed one, and touches no other segment. */
  lemma TriggerVisitKeeps(f: map<SegmentId, seq<bool>>, held: map<SegmentId, int>, s: SegmentId)
    ensures var v := TriggerVisit(f, held, s);
      (s in held ==> v.1 == held[s]) && v.2 == TriggerNeedsRefresh(s, held, f) &&
      forall t :: t != s ==> FlagsOf(v.0, t) == FlagsOf(f, t)
  {
  }

  /** Whatever the trigger records, the loop only clears flags or hands out
      new ids, and leaves every id it holds, old and new, valid. */
  lemma {:induction false} TriggerPassValid(f: map<SegmentId, seq<bool>>, held: map<SegmentId, int>,
                                            recs: seq<TriggerSegmentRec>)
    requires HeldValid(held, f)
    ensures var pass := TriggerPass(f, held, recs);
      OnlyClearsOrAppends(f, pass.0) && HeldValid(pass.1, pass.0) && HeldValid(held, pass.0)
  {
    if recs != [] {
      var n := |recs| - 1;
      TriggerPassValid(f, held, recs[..n]);
      var before := TriggerPass(f, held, recs[..n]);
      var s := recs[n].segment;
      TriggerVisitSpec(before.0, held, s);
      var v := TriggerVisit(before.0, held, s);
      OnlyClearsOrAppendsTrans(f, before.0, v.0);
      OnlyClearsOrAppendsKeeps(before.1, before.0, v.0);
      OnlyClearsOrAppendsKeeps(held, before.0, v.0);
    }
  }

  /** The loop holds an id on exactly the records' segments, and keeps the
      ids it already held. */
  lemma {:induction false} TriggerPassKeys(f: map<SegmentId, seq<bool>>, held: map<SegmentId, int>,
                                           recs: seq<TriggerSegmentRec>)
    ensures var pass := TriggerPass(f, held, recs);
      pass.1.Keys == TriggerSegmentsOf(recs) &&
      forall s :: s in pass.1 && s in held ==> pass.1[s] == held[s]
  {
    if recs != [] {
      var n := |recs| - 1;
      TriggerPassKeys(f, held, recs[..n]);
      var before := TriggerPass(f, held, recs[..n]);
      TriggerVisitKeeps(before.0, held, recs[n].segment);
      TriggerSegmentsOfLast(recs);
    }
  }

  /** The loop changes no flag of a segment outside the trigger records. */
  lemma {:induction false} TriggerPassUntouched(f: map<SegmentId, seq<bool>>, held: map<SegmentId, int>,
                                                recs: seq<TriggerSegmentRec>, t: SegmentId)
    requires t !in TriggerSegmentsOf(recs)
    ensures FlagsOf(TriggerPass(f, held, recs).0, t) == FlagsOf(f, t)
  {
    if recs != [] {
      var n := |recs| - 1;
      TriggerSegmentsOfLast(recs);
      TriggerPassUntouched(f, held, recs[..n], t);
      var before := TriggerPass(f, held, recs[..n]);
      TriggerVisitKeeps(before.0, held, recs[n].segment);
    }
  }

  /** When each trigger record has its own segment, the loop gathers exactly
      the runtime ids `Referenced` names. */
  lemma {:induction false} TriggerPassReferenced(f: map<SegmentId, seq<bool>>, held: map<SegmentId, int>,
                                                 recs: seq<TriggerSegmentRec>)
    requires DistinctTriggers(recs)
    ensures TriggerPass(f, held, recs).2 == Referenced(recs, held, f)
  {
    if recs != [] {
      var n := |recs| - 1;
      var s := recs[n].segment;
      assert DistinctTriggers(recs[..n]);
      TriggerPassReferenced(f, held, recs[..n]);
      var before := TriggerPass(f, held, recs[..n]);
      assert s !in TriggerSegmentsOf(recs[..n]);
      TriggerPassUntouched(f, held, recs[..n], s);
      TriggerVisitKeeps(before.0, held, s);
      assert TriggerNeedsRefresh(s, held, before.0) == TriggerNeedsRefresh(s, held, f);
    }
  }

  /** The loop leaves the flag under every id it holds clear. */
  lemma {:induction false} TriggerPassClear(f: map<SegmentId, seq<bool>>, held: map<SegmentId, int>,
                                            recs: seq<TriggerSegmentRec>)
    requires HeldValid(held, f)
    ensures var pass := TriggerPass(f, held, recs);
      HeldValid(pass.1, pass.0) && HeldClear(pass.1, pass.0)
  {
    TriggerPassValid(f, held, recs);
    if recs != [] {
      var n := |recs| - 1;
      var s := recs[n].segment;
      TriggerPassClear(f, held, recs[..n]);
      var before := TriggerPass(f, held, recs[..n]);
      TriggerVisitSpec(before.0, held, s);
      TriggerVisitKeeps(before.0, held, s);
      var v := TriggerVisit(before.0, held, s);
      var pass := TriggerPass(f, held, recs);
      assert pass.0 == v.0 && pass.1 == before.1[s := v.1];
      forall t | t in pass.1
        ensures !FlagsOf(pass.0, t)[pass.1[t]]
      {
        if t != s {
          assert pass.1[t] == before.1[t] && FlagsOf(pass.0, t) == FlagsOf(before.0, t);
        }
      }
    }
  }

  /** A current segment is re-mapped when its own flag is set or a refreshed
      trigger segment refers to its runtime id. */
  predicate NeedsRemap(s: SegmentId, held: map<SegmentId, int>, flags: map<SegmentId, seq<bool>>,
                       runtimeId: SegmentId -> int, ridset: set<int>)
  {
    (s in held && 0 <= held[s] < |FlagsOf(flags, s)| && FlagsOf(flags, s)[held[s]]) || runtimeId(s) in ridset
  }

  /** The segments of `keys` that need re-mapping, in the order of `keys`. */
  function Remapped(keys: seq<SegmentId>, held: map<SegmentId, int>, flags: map<SegmentId, seq<bool>>,
                    runtimeId: SegmentId -> int, ridset: set<int>): seq<SegmentId>
  {
    if keys == [] then []
    else
      var s := keys[|keys| - 1];
      Remapped(keys[..|keys| - 1], held, flags, runtimeId, ridset) +
      (if NeedsRemap(s, held, flags, runtimeId, ridset) then [s] else [])
  }

  /** Exactly the keys needing a re-map are re-mapped. */
  lemma {:induction false} RemappedSpec(keys: seq<SegmentId>, held: map<SegmentId, int>, flags: map<SegmentId, seq<bool>>,
                                        runtimeId: SegmentId -> int, ridset: set<int>, s: SegmentId)
    ensures s in Remapped(keys, held, flags, runtimeId, ridset) <==> s in keys && NeedsRemap(s, held, flags, runtimeId, ridset)
  {
    if keys != [] {
      var n := |keys| - 1;
      RemappedSpec(keys[..n], held, flags, runtimeId, ridset, s);
      assert keys == keys[..n] + [keys[n]];
    }
  }

  /** `setNeedsRefresh(false)` on flag `id`; an id out of range changes
      nothing. */
  function Clear(flags: seq<bool>, id: int): (r: seq<bool>)
  {
    if 0 <= id < |flags| then flags[id := false] else flags
  }

  /** The flags after one current segment is visited. */
  function Visit(f: map<SegmentId, seq<bool>>, held: map<SegmentId, int>, s: SegmentId,
                 runtimeId: SegmentId -> int, ridset: set<int>): map<SegmentId, seq<bool>>
  {
    if s in held && NeedsRemap(s, held, f, runtimeId, ridset) then f[s := Clear(FlagsOf(f, s), held[s])] else f
  }

  /** The current-segments loop as written: each key in turn is re-mapped
      when it needs it under the flags left by the keys before it. The
      result is the flags afterwards and the segments re-mapped, in order. */
  function RemapPass(f: map<SegmentId, seq<bool>>, held: map<SegmentId, int>, keys: seq<SegmentId>,
                     runtimeId: SegmentId -> int, ridset: set<int>): (map<SegmentId, seq<bool>>, seq<SegmentId>)
  {
    if keys == [] then (f, [])
    else
      var n := |keys| - 1;
      var before := RemapPass(f, held, keys[..n], runtimeId, ridset);
      var s := keys[n];
      (Visit(before.0, held, s, runtimeId, ridset),
       before.1 + if NeedsRemap(s, held, before.0, runtimeId, ridset) then [s] else [])
  }

  lemma RemapPassStep(f: map<SegmentId, seq<bool>>, held: map<SegmentId, int>, keys: seq<SegmentId>, i: int,
                      runtimeId: SegmentId -> int, ridset: set<int>)
    requires 0 <= i < |keys|
    ensures var before := RemapPass(f, held, keys[..i], runtimeId, ridset);
      RemapPass(f, held, keys[..i + 1], runtimeId, ridset) ==
        (Visit(before.0, held, keys[i], runtimeId, ridset),
         before.1 + if NeedsRemap(keys[i], held, before.0, runtimeId, ridset) then [keys[i]] else [])
  {
    assert keys[..i + 1][..i] == keys[..i];
  }

  /** No key occurs twice. */
  predicate Distinct(keys: seq<SegmentId>)
  {
    forall i, j :: 0 <= i < j < |keys| ==> keys[i] != keys[j]
  }

  /** Over distinct keys the loop only touches the flags of the keys, so each
      key is judged on the flags it had before the loop: the segments
      re-mapped are exactly `Remapped`. Every visited key's held flag ends
      up clear, and flags are only cleared. */
  lemma {:induction false} RemapPassSpec(f: map<SegmentId, seq<bool>>, held: map<SegmentId, int>, keys: seq<SegmentId>,
                                         runtimeId: SegmentId -> int, ridset: set<int>)
    requires forall k :: k in keys ==> k in held
    requires Distinct(keys) && HeldValid(held, f)
    ensures RemapPass(f, held, keys, runtimeId, ridset).1 == Remapped(keys, held, f, runtimeId, ridset)
    ensures forall t :: t !in keys ==> FlagsOf(RemapPass(f, held, keys, runtimeId, ridset).0, t) == FlagsOf(f, t)
    ensures forall t :: t in keys ==>
      |FlagsOf(RemapPass(f, held, keys, runtimeId, ridset).0, t)| == |FlagsOf(f, t)| &&
      !FlagsOf(RemapPass(f, held, keys, runtimeId, ridset).0, t)[held[t]]
    ensures OnlyClearsOrAppends(f, RemapPass(f, held, keys, runtimeId, ridset).0)
  {
    if keys != [] {
      var n := |keys| - 1;
      var ks := keys[..n];
      var s := keys[n];
      assert forall k :: k in ks ==> k in keys;
      assert s !in ks;
      RemapPassSpec(f, held, ks, runtimeId, ridset);
      var before := RemapPass(f, held, ks, runtimeId, ridset);
      var after := Visit(before.0, held, s, runtimeId, ridset);
      assert FlagsOf(before.0, s) == FlagsOf(f, s);
      assert NeedsRemap(s, held, before.0, runtimeId, ridset) == NeedsRemap(s, held, f, runtimeId, ridset);
      assert keys == ks + [s];
      forall t | t != s
        ensures FlagsOf(after, t) == FlagsOf(before.0, t)
      {
      }
      ClearIsSuchOrSame(before.0, held, s, runtimeId, ridset);
      OnlyClearsOrAppendsTrans(f, before.0, after);
    }
  }

  /** The current-segments loop over every held segment in ascending order
      re-maps exactly `Remapped`, only clears flags, and leaves every held
      flag clear. */
  lemma CurrentPassClears(f: map<SegmentId, seq<bool>>, held: map<SegmentId, int>,
                          runtimeId: SegmentId -> int, ridset: set<int>)
    requires HeldValid(held, f)
    ensures var pass := RemapPass(f, held, Ascending(held.Keys), runtimeId, ridset);
      pass.1 == Remapped(Ascending(held.Keys), held, f, runtimeId, ridset) &&
      OnlyClearsOrAppends(f, pass.0) && HeldValid(held, pass.0) && HeldClear(held, pass.0)
  {
    var keys := Ascending(held.Keys);
    AscendingVisitsOnce(held.Keys);
    RemapPassSpec(f, held, keys, runtimeId, ridset);
    var g := RemapPass(f, held, keys, runtimeId, ridset).0;
    forall t | t in held
      ensures 0 <= held[t] < |FlagsOf(g, t)| && !FlagsOf(g, t)[held[t]]
    {
      assert t in keys;
    }
  }

  lemma ClearIsSuchOrSame(f: map<SegmentId, seq<bool>>, held: map<SegmentId, int>, s: SegmentId,
                          runtimeId: SegmentId -> int, ridset: set<int>)
    requires s in held
    ensures OnlyClearsOrAppends(f, Visit(f, held, s, runtimeId, ridset))
    ensures 0 <= held[s] < |FlagsOf(f, s)| ==> !FlagsOf(Visit(f, held, s, runtimeId, ridset), s)[held[s]]
    ensures |FlagsOf(Visit(f, held, s, runtimeId, ridset), s)| == |FlagsOf(f, s)|
  {
    var g := Visit(f, held, s, runtimeId, ridset);
    forall t ensures ClearsOrAppends(FlagsOf(f, t), FlagsOf(g, t))
    {
    }
  }

  /** Every held id indexes its segment's refresh-status array. */
  ghost predicate HeldValid(held: map<SegmentId, int>, flags: map<SegmentId, seq<bool>>)
  {
    forall s :: s in held ==> 0 <= held[s] < |FlagsOf(flags, s)|
  }

  /** No held id is flagged. */
  ghost predicate HeldClear(held: map<SegmentId, int>, flags: map<SegmentId, seq<bool>>)
    requires HeldValid(held, flags)
  {
    forall s :: s in held ==> !FlagsOf(flags, s)[held[s]]
  }

  /** Every segment of `added` that `before` did not hold is held now, at an
      id whose flag is set. */
  ghost predicate NewlyFlagged(before: map<SegmentId, int>, held: map<SegmentId, int>,
                               flags: map<SegmentId, seq<bool>>, added: set<SegmentId>)
  {
    forall s :: s in added && s !in before ==>
      s in held && 0 <= held[s] < |FlagsOf(flags, s)| && FlagsOf(flags, s)[held[s]]
  }

  /** `held` is `before` with the segments of `added` added as
      `segmentAdded` adds them: nothing else joins, known segments keep their
      ids, and the new ones hold flagged ids. */
  ghost predicate AddedTo(before: map<SegmentId, int>, held: map<SegmentId, int>,
                          flags: map<SegmentId, seq<bool>>, added: set<SegmentId>)
  {
    held.Keys == before.Keys + added &&
    (forall s :: s in before ==> s in held && held[s] == before[s]) &&
    NewlyFlagged(before, held, flags, added)
  }

  /** Adding one more segment of `q`, as `segmentAdded` does, extends
      `AddedTo` by that segment. */
  lemma AddedToStep(before: map<SegmentId, int>, held: map<SegmentId, int>, held': map<SegmentId, int>,
                    flags: map<SegmentId, seq<bool>>, q: seq<SegmentId>, i: nat)
    requires i < |q|
    requires AddedTo(before, held, flags, Elements(q[..i]))
    requires held' == if q[i] in held then held else held[q[i] := |FlagsOf(flags, q[i])|]
    ensures Elements(q[..i + 1]) == Elements(q[..i]) + {q[i]}
    ensures AddedTo(before, held', flags[q[i] := FlagsOf(flags, q[i]) + [true]], Elements(q[..i + 1]))
  {
    var done, x := q[..i], q[i];
    assert q[..i + 1][..i] == done;
    assert Elements(q[..i + 1]) == Elements(done) + {x};
    var flags' := flags[x := FlagsOf(flags, x) + [true]];
    forall s | s in Elements(q[..i + 1]) && s !in before
      ensures s in held' && 0 <= held'[s] < |FlagsOf(flags', s)| && FlagsOf(flags', s)[held'[s]]
    {
      if s != x || s in held {
        assert s in Elements(done);
      }
    }
  }

  /** One segment's flags after an update that only clears flags or hands
      out new ones. */
  ghost predicate ClearsOrAppends(a: seq<bool>, b: seq<bool>)
  {
    |a| <= |b| && forall i :: 0 <= i < |a| && b[i] ==> a[i]
  }

  ghost predicate OnlyClearsOrAppends(f0: map<SegmentId, seq<bool>>, f1: map<SegmentId, seq<bool>>)
  {
    forall s :: ClearsOrAppends(FlagsOf(f0, s), FlagsOf(f1, s))
  }

  /** Such updates compose, and keep held ids valid and cleared flags
      cleared. */
  lemma OnlyClearsOrAppendsTrans(f0: map<SegmentId, seq<bool>>, f1: map<SegmentId, seq<bool>>, f2: map<SegmentId, seq<bool>>)
    requires OnlyClearsOrAppends(f0, f1) && OnlyClearsOrAppends(f1, f2)
    ensures OnlyClearsOrAppends(f0, f2)
  {
    forall s ensures ClearsOrAppends(FlagsOf(f0, s), FlagsOf(f2, s))
    {
      assert ClearsOrAppends(FlagsOf(f0, s), FlagsOf(f1, s));
      assert ClearsOrAppends(FlagsOf(f1, s), FlagsOf(f2, s));
    }
  }

  lemma OnlyClearsOrAppendsKeeps(held: map<SegmentId, int>, f0: map<SegmentId, seq<bool>>, f1: map<SegmentId, seq<bool>>)
    requires HeldValid(held, f0) && OnlyClearsOrAppends(f0, f1)
    ensures HeldValid(held, f1)
    ensures HeldClear(held, f0) ==> HeldClear(held, f1)
  {
    forall s | s in held
      ensures 0 <= held[s] < |FlagsOf(f1, s)|
    {
      assert ClearsOrAppends(FlagsOf(f0, s), FlagsOf(f1, s));
    }
    if HeldClear(held, f0) {
      forall s | s in held
        ensures !FlagsOf(f1, s)[held[s]]
      {
        assert ClearsOrAppends(FlagsOf(f0, s), FlagsOf(f1, s));
      }
    }
  }

  /** Handing out a new id, and clearing one flag, are such updates. */
  lemma AppendIsSuch(f: map<SegmentId, seq<bool>>, s: SegmentId)
    ensures OnlyClearsOrAppends(f, f[s := FlagsOf(f, s) + [true]])
  {
    var g := f[s := FlagsOf(f, s) + [true]];
    forall t ensures ClearsOrAppends(FlagsOf(f, t), FlagsOf(g, t))
    {
      if t == s {
        assert FlagsOf(g, t) == FlagsOf(f, t) + [true];
      }
    }
  }

  lemma ClearIsSuch(f: map<SegmentId, seq<bool>>, s: SegmentId, id: int)
    requires 0 <= id < |FlagsOf(f, s)|
    ensures OnlyClearsOrAppends(f, f[s := FlagsOf(f, s)[id := false]])
  {
    var g := f[s := FlagsOf(f, s)[id := false]];
    forall t ensures ClearsOrAppends(FlagsOf(f, t), FlagsOf(g, t))
    {
      if t == s {
        assert FlagsOf(g, t) == FlagsOf(f, t)[id := false];
      }
    }
  }

  class SequenceManager {
    const doc: RosegardenDocument?
    /** Segment to the refresh id held on it. */
    var segments: map<SegmentId, int>
    var triggerSegments: map<SegmentId, int>
    var addedSegments: seq<SegmentId>
    var removedSegments: seq<SegmentId>
    var transportStatus: TransportStatus
    /** `clock()` at the last rewind press while playing. */
    var lastRewoundAt: int
    var sampleRate: int
    /** The segments the composition mapper holds a mapper for. */
    var mapped: set<SegmentId>
    /** The notifications sent to the composition mapper and the sequencer. */
    var mapperCalls: seq<MapperCall>
    /** The event lists sent to the studio. */
    var sent: seq<seq<MappedEvent>>

    /** The default constructor followed by `setDocument`; `now` is the
        clock at construction. */
    constructor (doc: RosegardenDocument?, now: int)
      ensures this.doc == doc
      ensures segments == map[] && triggerSegments == map[]
      ensures addedSegments == [] && removedSegments == []
      ensures transportStatus == Stopped && lastRewoundAt == now && sampleRate == 0
      ensures mapped == {} && mapperCalls == [] && sent == []
    {
      this.doc := doc;
      segments, triggerSegments := map[], map[];
      addedSegments, removedSegments := [], [];
      transportStatus := Stopped;
      lastRewoundAt := now;
      sampleRate := 0;
      mapped, mapperCalls, sent := {}, [], [];
    }

    /** Every held id indexes its segment's refresh-status array. */
    ghost predicate Valid()
      reads this, if doc != null then {doc.composition} else {}
    {
      doc != null &&
      HeldValid(segments, doc.composition.refreshStatus) &&
      HeldValid(triggerSegments, doc.composition.refreshStatus)
    }

    /** `segmentAdded(Composition*, Segment*)`: only queues the segment. */
    method SegmentAddedToComposition(s: SegmentId)
      modifies this`addedSegments
      ensures addedSegments == old(addedSegments) + [s]
    {
      addedSegments := addedSegments + [s];
    }

    /** `segmentRemoved`: queues the segment for deletion and cancels its
        first pending addition. */
    method SegmentRemoved(s: SegmentId)
      modifies this`addedSegments, this`removedSegments
      ensures removedSegments == old(removedSegments) + [s]
      ensures addedSegments == RemoveFirst(old(addedSegments), s)
      ensures multiset(addedSegments) == multiset(old(addedSegments)) - multiset{s}
    {
      removedSegments := removedSegments + [s];
      RemoveFirstCount(addedSegments, s);
      addedSegments := RemoveFirst(addedSegments, s);
    }

    /** `segmentModified(Segment*)`: the mapper is refreshed and the sequencer
        told. */
    method SegmentModified(s: SegmentId)
      modifies this`mapperCalls
      ensures mapperCalls == old(mapperCalls) + [MapperCall(Modify, s)]
    {
      mapperCalls := mapperCalls + [MapperCall(Modify, s)];
    }

    /** `segmentAdded(Segment*)`: a mapper is made, and a new refresh id is
        taken on the segment; the map keeps an id it already holds. */
    method SegmentAdded(s: SegmentId)
      requires Valid()
      modifies this`mapped, this`mapperCalls, this`segments, doc.composition`refreshStatus
      ensures Valid()
      ensures mapped == old(mapped) + {s}
      ensures mapperCalls == old(mapperCalls) + [MapperCall(Add, s)]
      ensures doc.composition.refreshStatus ==
        old(doc.composition.refreshStatus)[s := FlagsOf(old(doc.composition.refreshStatus), s) + [true]]
      ensures segments == if s in old(segments) then old(segments)
                          else old(segments)[s := |FlagsOf(old(doc.composition.refreshStatus), s)|]
      ensures OnlyClearsOrAppends(old(doc.composition.refreshStatus), doc.composition.refreshStatus)
    {
      var composition := doc.composition;
      ghost var f0 := composition.refreshStatus;
      mapped := mapped + {s};
      mapperCalls := mapperCalls + [MapperCall(Add, s)];
      var id := composition.NewRefreshStatusId(s);
      AppendIsSuch(f0, s);
      OnlyClearsOrAppendsKeeps(segments, f0, composition.refreshStatus);
      OnlyClearsOrAppendsKeeps(triggerSegments, f0, composition.refreshStatus);
      if s !in segments {
        segments := segments[s := id];
      }
    }

    /** `segmentDeleted`: the mapper goes, and so does the held id. */
    method SegmentDeleted(s: SegmentId)
      requires Valid()
      modifies this`mapped, this`mapperCalls, this`segments
      ensures Valid()
      ensures mapped == old(mapped) - {s}
      ensures mapperCalls == old(mapperCalls) + [MapperCall(Delete, s)]
      ensures segments == old(segments) - {s}
    {
      mapperCalls := mapperCalls + [MapperCall(Delete, s)];
      mapped := mapped - {s};
      segments := segments - {s};
    }

    /** `rewind`: back to the start of the bar (one more when pressed twice
        quickly while playing), never before the start marker. */
    method Rewind(now: int)
      modifies this`lastRewoundAt, if doc != null then {doc.composition} else {}
      ensures doc == null ==> lastRewoundAt == old(lastRewoundAt)
      ensures doc != null ==>
        doc.composition.position ==
          RewindTarget(old(doc.composition.position), doc.composition.startMarker, doc.composition.barRange,
                       transportStatus == Playing, ElapsedMs(now, old(lastRewoundAt))) &&
        lastRewoundAt == (if transportStatus == Playing then now else old(lastRewoundAt)) &&
        unchanged(doc.composition`startMarker, doc.composition`endMarker, doc.composition`segmentEvents,
                  doc.composition`refreshStatus, doc.composition`segments, doc.composition`triggerSegments,
                  doc.composition`tracks)
    {
      if doc == null {
        return;
      }
      var composition := doc.composition;
      var position := composition.position;
      var barRange := composition.barRange(position - 1);
      if transportStatus == Playing {
        var elapsed := CDiv((now - lastRewoundAt) * 1000, ClocksPerSec);
        if elapsed >= 0 && elapsed <= 200 {
          var halfway := barRange.0 + CDiv(barRange.1 - barRange.0, 2);
          if position <= halfway {
            barRange := composition.barRange(barRange.0 - 1);
          }
        }
        lastRewoundAt := now;
      }
      if barRange.0 < composition.startMarker {
        doc.SlotSetPointerPosition(composition.startMarker);
      } else {
        doc.SlotSetPointerPosition(barRange.0);
      }
    }

    /** `fastforward`: to the end of the bar, never past the end marker. */
    method Fastforward()
      modifies if doc != null then {doc.composition} else {}
      ensures doc != null ==>
        doc.composition.position ==
          FastforwardTarget(old(doc.composition.position), doc.composition.endMarker, doc.composition.barEnd) &&
        unchanged(doc.composition`startMarker, doc.composition`endMarker, doc.composition`segmentEvents,
                  doc.composition`refreshStatus, doc.composition`segments, doc.composition`triggerSegments,
                  doc.composition`tracks)
    {
      if doc == null {
        return;
      }
      var composition := doc.composition;
      var position := composition.position;
      var newPosition := composition.barEnd(position);
      if newPosition > composition.endMarker {
        newPosition := composition.endMarker;
      }
      doc.SlotSetPointerPosition(newPosition);
    }

    /** `rewindToBeginning`; the source does not check for a document here. */
    method RewindToBeginning()
      requires doc != null
      modifies doc.composition`position
      ensures doc.composition.position == doc.composition.startMarker
    {
      doc.SlotSetPointerPosition(doc.composition.startMarker);
    }

    /** `fastForwardToEnd`; the source does not check for a document here. */
    method FastForwardToEnd()
      requires doc != null
      modifies doc.composition`position
      ensures doc.composition.position == doc.composition.endMarker
    {
      doc.SlotSetPointerPosition(doc.composition.endMarker);
    }

    /** `resetMidiNetwork`: the reset burst is sent as one list. */
    method ResetMidiNetwork()
      modifies this`sent
      ensures |sent| == |old(sent)| + 1 && sent[..|old(sent)|] == old(sent)
      ensures |sent[|old(sent)|]| == 16
      ensures forall i :: 0 <= i < 16 ==> sent[|old(sent)|][i] == ResetEvent(i)
    {
      var events := ResetEvents();
      sent := sent + [events];
    }

    /** `getSampleRate`: the sequencer's rate, asked once and cached; a zero
        answer is not cached, so the sequencer is asked again next time. */
    method GetSampleRate(sequencerRate: int) returns (rate: int)
      modifies this`sampleRate
      ensures rate == (if old(sampleRate) != 0 then old(sampleRate) else sequencerRate)
      ensures sampleRate == rate
    {
      if sampleRate != 0 {
        return sampleRate;
      }
      sampleRate := sequencerRate;
      return sampleRate;
    }

    /** `makeTempMetaiterator`: the tempo, time signature and marker mappers,
        then every segment mapper in segment order. */
    method MakeTempMetaiterator() returns (entries: seq<MetaEntry>)
      ensures |entries| == 3 + |mapped|
      ensures entries[..3] == [TempoMapper, TimeSigMapper, MarkerMapper]
      ensures forall i :: 3 <= i < |entries| ==> entries[i].SegmentMapperOf? && entries[i].segment in mapped
      ensures forall s :: s in mapped ==> SegmentMapperOf(s) in entries[3..]
      ensures forall i, j :: 3 <= i < j < |entries| ==> entries[i].segment < entries[j].segment
    {
      var segs := InOrder(mapped);
      AscendingSpec(mapped);
      entries := [TempoMapper, TimeSigMapper, MarkerMapper] + MapperEntries(segs);
      forall s | s in mapped
        ensures SegmentMapperOf(s) in entries[3..]
      {
        var i :| 0 <= i < |segs| && segs[i] == s;
        assert entries[3..][i] == SegmentMapperOf(s);
      }
    }

    /** `populateCompositionMapper`: every segment of the composition is
        added, then a refresh id is taken on every trigger segment. */
    method PopulateCompositionMapper()
      requires Valid()
      modifies this`mapped, this`mapperCalls, this`segments, this`triggerSegments, doc.composition`refreshStatus
      ensures Valid()
      ensures mapperCalls == old(mapperCalls) + Calls(Add, doc.composition.segments)
      ensures mapped == old(mapped) + Elements(doc.composition.segments)
      ensures segments.Keys == old(segments).Keys + Elements(doc.composition.segments)
      ensures triggerSegments.Keys == old(triggerSegments).Keys + TriggerSegmentsOf(doc.composition.triggerSegments)
      ensures forall s :: s in old(segments) ==> segments[s] == old(segments)[s]
      ensures forall s :: s in old(triggerSegments) ==> triggerSegments[s] == old(triggerSegments)[s]
    {
      AddAll(doc.composition.segments);
      TakeTriggerIds(doc.composition.triggerSegments);
    }

    /** The trigger loop of `populateCompositionMapper`: the map keeps an id
        it already holds, but a new id is taken regardless. */
    method TakeTriggerIds(triggers: seq<TriggerSegmentRec>)
      requires Valid()
      modifies this`triggerSegments, doc.composition`refreshStatus
      ensures Valid()
      ensures triggerSegments.Keys == old(triggerSegments).Keys + TriggerSegmentsOf(triggers)
      ensures forall s :: s in old(triggerSegments) ==> triggerSegments[s] == old(triggerSegments)[s]
    {
      ghost var held := triggerSegments;
      var j := 0;
      while j < |triggers|
        invariant 0 <= j <= |triggers| && Valid()
        invariant triggerSegments.Keys == held.Keys + TriggerSegmentsOf(triggers[..j])
        invariant forall s :: s in held ==> triggerSegments[s] == held[s]
      {
        assert TriggerSegmentsOf(triggers[..j + 1]) == TriggerSegmentsOf(triggers[..j]) + {triggers[j].segment};
        TakeTriggerId(triggers[j].segment);
        j := j + 1;
      }
      assert triggers[..j] == triggers;
    }

    /** `m_triggerSegments.insert(s, s->getNewRefreshStatusId())`. */
    method TakeTriggerId(s: SegmentId)
      requires Valid()
      modifies this`triggerSegments, doc.composition`refreshStatus
      ensures Valid()
      ensures doc.composition.refreshStatus ==
        old(doc.composition.refreshStatus)[s := FlagsOf(old(doc.composition.refreshStatus), s) + [true]]
      ensures triggerSegments == if s in old(triggerSegments) then old(triggerSegments)
                                 else old(triggerSegments)[s := |FlagsOf(old(doc.composition.refreshStatus), s)|]
    {
      var composition := doc.composition;
      ghost var f0 := composition.refreshStatus;
      var id := composition.NewRefreshStatusId(s);
      AppendIsSuch(f0, s);
      OnlyClearsOrAppendsKeeps(segments, f0, composition.refreshStatus);
      OnlyClearsOrAppendsKeeps(triggerSegments, f0, composition.refreshStatus);
      if s !in triggerSegments {
        triggerSegments := triggerSegments[s := id];
      }
    }

    /** `segmentAdded(Segment*)` for each segment of `q`, in order. */
    method AddAll(q: seq<SegmentId>)
      requires Valid()
      modifies this`mapped, this`mapperCalls, this`segments, doc.composition`refreshStatus
      ensures Valid()
      ensures mapperCalls == old(mapperCalls) + Calls(Add, q)
      ensures mapped == old(mapped) + Elements(q)
      ensures segments.Keys == old(segments).Keys + Elements(q)
      ensures forall s :: s in old(segments) ==> segments[s] == old(segments)[s]
      ensures OnlyClearsOrAppends(old(doc.composition.refreshStatus), doc.composition.refreshStatus)
      ensures NewlyFlagged(old(segments), segments, doc.composition.refreshStatus, Elements(q))
    {
      var composition := doc.composition;
      ghost var f0, m0, c0, seg0 := composition.refreshStatus, mapped, mapperCalls, segments;
      var i := 0;
      while i < |q|
        invariant 0 <= i <= |q| && Valid()
        invariant mapperCalls == c0 + Calls(Add, q[..i])
        invariant mapped == m0 + Elements(q[..i])
        invariant OnlyClearsOrAppends(f0, composition.refreshStatus)
        invariant AddedTo(seg0, segments, composition.refreshStatus, Elements(q[..i]))
      {
        AddNext(q, i, f0, m0, c0, seg0);
        i := i + 1;
      }
      assert q[..i] == q;
    }

    /** One iteration of `AddAll`: `segmentAdded` for `q[i]`, which carries
        the loop's account of the first `i` segments on to the first `i + 1`. */
    method AddNext(q: seq<SegmentId>, i: nat, ghost f0: map<SegmentId, seq<bool>>, ghost m0: set<SegmentId>,
                   ghost c0: seq<MapperCall>, ghost seg0: map<SegmentId, int>)
      requires i < |q| && Valid()
      requires mapperCalls == c0 + Calls(Add, q[..i]) && mapped == m0 + Elements(q[..i])
      requires OnlyClearsOrAppends(f0, doc.composition.refreshStatus)
      requires AddedTo(seg0, segments, doc.composition.refreshStatus, Elements(q[..i]))
      modifies this`mapped, this`mapperCalls, this`segments, doc.composition`refreshStatus
      ensures Valid()
      ensures mapperCalls == c0 + Calls(Add, q[..i + 1]) && mapped == m0 + Elements(q[..i + 1])
      ensures OnlyClearsOrAppends(f0, doc.composition.refreshStatus)
      ensures AddedTo(seg0, segments, doc.composition.refreshStatus, Elements(q[..i + 1]))
    {
      assert q[..i + 1][..i] == q[..i];
      ghost var before, segBefore := doc.composition.refreshStatus, segments;
      SegmentAdded(q[i]);
      OnlyClearsOrAppendsTrans(f0, before, doc.composition.refreshStatus);
      AddedToStep(seg0, segBefore, segments, before, q, i);
    }

    /** `refresh`: trigger segments first, then the removed segments, then
        the current segments in segment order, then the added segments. Both
        queues end empty, the trigger map is rebuilt with every flag it holds
        clear, no segment kept
        from before is left flagged, and an added segment that was not mapped
        before holds a new id whose flag is set. */
    method Refresh()
      requires Valid()
      modifies this`mapped, this`mapperCalls, this`segments, this`triggerSegments,
               this`addedSegments, this`removedSegments, doc.composition`refreshStatus
      ensures Valid()
      ensures addedSegments == [] && removedSegments == []
      ensures var trig := TriggerPass(old(doc.composition.refreshStatus), old(triggerSegments),
                                      doc.composition.triggerSegments);
        var kept := old(segments) - Elements(old(removedSegments));
        triggerSegments == trig.1 &&
        mapperCalls == old(mapperCalls) + Calls(Delete, old(removedSegments)) +
          Calls(Modify, Remapped(Ascending(kept.Keys), kept, trig.0, doc.composition.runtimeId, trig.2)) +
          Calls(Add, old(addedSegments)) &&
        (forall s :: s in kept ==> s in segments && segments[s] == kept[s]) &&
        segments.Keys == kept.Keys + Elements(old(addedSegments)) &&
        mapped == old(mapped) - Elements(old(removedSegments)) + Elements(old(addedSegments)) &&
        HeldValid(kept, doc.composition.refreshStatus) && HeldClear(kept, doc.composition.refreshStatus)
      ensures var kept := old(segments) - Elements(old(removedSegments));
        NewlyFlagged(kept, segments, doc.composition.refreshStatus, Elements(old(addedSegments)))
      ensures HeldClear(triggerSegments, doc.composition.refreshStatus)
    {
      var composition := doc.composition;
      ghost var f0, held0 := composition.refreshStatus, triggerSegments;
      var ridset := RefreshTriggers();
      ghost var f1 := composition.refreshStatus;
      RefreshSegments(ridset);
      TriggerPassClear(f0, held0, composition.triggerSegments);
      OnlyClearsOrAppendsKeeps(triggerSegments, f1, composition.refreshStatus);
    }

    /** The segment loops of `refresh`: the removed segments, the current
        segments in segment order, then the added segments. */
    method RefreshSegments(ridset: set<int>)
      requires Valid()
      modifies this`mapped, this`mapperCalls, this`segments,
               this`addedSegments, this`removedSegments, doc.composition`refreshStatus
      ensures Valid()
      ensures addedSegments == [] && removedSegments == []
      ensures var kept := old(segments) - Elements(old(removedSegments));
        mapperCalls == old(mapperCalls) + Calls(Delete, old(removedSegments)) +
          Calls(Modify, Remapped(Ascending(kept.Keys), kept, old(doc.composition.refreshStatus),
                                 doc.composition.runtimeId, ridset)) +
          Calls(Add, old(addedSegments)) &&
        (forall s :: s in kept ==> s in segments && segments[s] == kept[s]) &&
        segments.Keys == kept.Keys + Elements(old(addedSegments)) &&
        mapped == old(mapped) - Elements(old(removedSegments)) + Elements(old(addedSegments)) &&
        HeldValid(kept, doc.composition.refreshStatus) && HeldClear(kept, doc.composition.refreshStatus)
      ensures var kept := old(segments) - Elements(old(removedSegments));
        NewlyFlagged(kept, segments, doc.composition.refreshStatus, Elements(old(addedSegments)))
      ensures OnlyClearsOrAppends(old(doc.composition.refreshStatus), doc.composition.refreshStatus)
    {
      var composition := doc.composition;
      ghost var f1 := composition.refreshStatus;
      RemovePass();
      ghost var kept := segments;
      CurrentPass(ridset);
      ghost var f2 := composition.refreshStatus;
      CurrentPassClears(f1, kept, composition.runtimeId, ridset);
      AddAll(addedSegments);
      addedSegments := [];
      OnlyClearsOrAppendsKeeps(kept, f2, composition.refreshStatus);
      OnlyClearsOrAppendsTrans(f1, f2, composition.refreshStatus);
    }

    /** The trigger loop of `refresh`. */
    method RefreshTriggers() returns (ridset: set<int>)
      requires Valid()
      modifies this`triggerSegments, doc.composition`refreshStatus
      ensures Valid()
      ensures var pass := TriggerPass(old(doc.composition.refreshStatus), old(triggerSegments),
                                      doc.composition.triggerSegments);
        doc.composition.refreshStatus == pass.0 && triggerSegments == pass.1 && ridset == pass.2
    {
      var composition := doc.composition;
      var triggers := composition.triggerSegments;
      ghost var f0 := composition.refreshStatus;
      var held := triggerSegments;
      var newTriggerMap: map<SegmentId, int> := map[];
      ridset := {};
      var i := 0;
      while i < |triggers|
        invariant 0 <= i <= |triggers| && Valid() && triggerSegments == held
        invariant var pass := TriggerPass(f0, held, triggers[..i]);
          composition.refreshStatus == pass.0 && newTriggerMap == pass.1 && ridset == pass.2
      {
        var s := triggers[i].segment;
        TriggerPassStep(f0, held, triggers, i);
        var id, refresh := TriggerStep(s, held);
        newTriggerMap := newTriggerMap[s := id];
        if refresh {
          ridset := ridset + triggers[i].references;
        }
        i := i + 1;
      }
      assert triggers[..i] == triggers;
      TriggerPassValid(f0, held, triggers);
      triggerSegments := newTriggerMap;
    }

    /** One trigger segment: the held id or a new one, and whether its flag
        was set (then cleared). */
    method TriggerStep(s: SegmentId, held: map<SegmentId, int>) returns (id: int, refresh: bool)
      requires Valid() && held == triggerSegments
      modifies doc.composition`refreshStatus
      ensures Valid()
      ensures (doc.composition.refreshStatus, id, refresh) == TriggerVisit(old(doc.composition.refreshStatus), held, s)
    {
      var composition := doc.composition;
      ghost var before := composition.refreshStatus;
      TriggerVisitSpec(before, held, s);
      if s !in held {
        id := composition.NewRefreshStatusId(s);
      } else {
        id := held[s];
      }
      refresh := FlagsOf(composition.refreshStatus, s)[id];
      if refresh {
        composition.ClearRefresh(s, id);
      }
      OnlyClearsOrAppendsKeeps(segments, before, composition.refreshStatus);
      OnlyClearsOrAppendsKeeps(triggerSegments, before, composition.refreshStatus);
    }

    /** The removed-segments loop of `refresh`. */
    method RemovePass()
      requires Valid()
      modifies this`mapped, this`mapperCalls, this`segments, this`removedSegments
      ensures Valid()
      ensures removedSegments == []
      ensures mapperCalls == old(mapperCalls) + Calls(Delete, old(removedSegments))
      ensures segments == old(segments) - Elements(old(removedSegments))
      ensures mapped == old(mapped) - Elements(old(removedSegments))
    {
      var q := removedSegments;
      ghost var m0, c0, seg0 := mapped, mapperCalls, segments;
      var i := 0;
      while i < |q|
        invariant 0 <= i <= |q| && Valid()
        invariant mapperCalls == c0 + Calls(Delete, q[..i])
        invariant segments == seg0 - Elements(q[..i])
        invariant mapped == m0 - Elements(q[..i])
      {
        assert q[..i + 1][..i] == q[..i];
        SegmentDeleted(q[i]);
        i := i + 1;
      }
      assert q[..i] == q;
      removedSegments := [];
    }

    /** The current-segments loop of `refresh`: in segment order, every
        segment needing a re-map is re-mapped and its flag cleared. */
    method CurrentPass(ridset: set<int>)
      requires Valid()
      modifies this`mapperCalls, doc.composition`refreshStatus
      ensures Valid()
      ensures var pass := RemapPass(old(doc.composition.refreshStatus), segments, Ascending(segments.Keys),
                                    doc.composition.runtimeId, ridset);
        doc.composition.refreshStatus == pass.0 && mapperCalls == old(mapperCalls) + Calls(Modify, pass.1)
    {
      var composition := doc.composition;
      ghost var f0, c0 := composition.refreshStatus, mapperCalls;
      var keys := InOrder(segments.Keys);
      ghost var held := segments;
      assert forall j :: 0 <= j < |keys| ==> keys[j] in held by {
        AscendingVisitsOnce(held.Keys);
      }
      var i := 0;
      while i < |keys|
        invariant 0 <= i <= |keys| && Valid() && segments == held
        invariant VisitedUpTo(keys, i, ridset, f0, c0)
      {
        VisitKey(keys, i, ridset, f0, c0);
        i := i + 1;
      }
      assert keys[..i] == keys;
    }

    /** The state after the current-segments loop has visited `keys[..i]`,
        starting from flags `f0` and notifications `c0`. */
    ghost predicate VisitedUpTo(keys: seq<SegmentId>, i: int, ridset: set<int>, f0: map<SegmentId, seq<bool>>,
                                c0: seq<MapperCall>)
      requires 0 <= i <= |keys|
      reads this, if doc != null then {doc.composition} else {}
    {
      doc != null &&
      var pass := RemapPass(f0, segments, keys[..i], doc.composition.runtimeId, ridset);
      doc.composition.refreshStatus == pass.0 && mapperCalls == c0 + Calls(Modify, pass.1)
    }

    /** One turn of the current-segments loop. */
    method VisitKey(keys: seq<SegmentId>, i: int, ridset: set<int>, ghost f0: map<SegmentId, seq<bool>>,
                    ghost c0: seq<MapperCall>)
      requires Valid() && 0 <= i < |keys| && keys[i] in segments
      requires VisitedUpTo(keys, i, ridset, f0, c0)
      modifies this`mapperCalls, doc.composition`refreshStatus
      ensures Valid()
      ensures VisitedUpTo(keys, i + 1, ridset, f0, c0)
    {
      ghost var before := RemapPass(f0, segments, keys[..i], doc.composition.runtimeId, ridset);
      RemapPassStep(f0, segments, keys, i, doc.composition.runtimeId, ridset);
      ghost var needs := NeedsRemap(keys[i], segments, before.0, doc.composition.runtimeId, ridset);
      RemapStep(keys[i], ridset);
      if needs {
        CallsAppend(Modify, before.1, keys[i]);
      } else {
        assert before.1 + [] == before.1;
      }
    }

    /** One current segment: re-mapped and its flag cleared if it needs it. */
    method RemapStep(s: SegmentId, ridset: set<int>)
      requires Valid() && s in segments
      modifies this`mapperCalls, doc.composition`refreshStatus
      ensures Valid()
      ensures doc.composition.refreshStatus ==
        Visit(old(doc.composition.refreshStatus), segments, s, doc.composition.runtimeId, ridset)
      ensures mapperCalls == old(mapperCalls) +
        (if NeedsRemap(s, segments, old(doc.composition.refreshStatus), doc.composition.runtimeId, ridset)
         then [MapperCall(Modify, s)] else [])
    {
      var composition := doc.composition;
      ghost var before := composition.refreshStatus;
      var id := segments[s];
      ClearIsSuchOrSame(before, segments, s, composition.runtimeId, ridset);
      if FlagsOf(composition.refreshStatus, s)[id] || composition.runtimeId(s) in ridset {
        SegmentModified(s);
        composition.ClearRefresh(s, id);
      }
      OnlyClearsOrAppendsKeeps(segments, before, composition.refreshStatus);
      OnlyClearsOrAppendsKeeps(triggerSegments, before, composition.refreshStatus);
    }
  }
}
