// The document's own state: the modified/auto-saved flags, the quick marker,
// the playback pointer it moves, and the MIDI recording bookkeeping, which
// copies incoming events into the recording segments and remembers note-ons
// under (device, channel, pitch) until their note-offs arrive.
module Documents {
  import opened Base
  import opened Events
  import opened Compositions

  /** A remembered note-on: the recording segment and the event in it. */
  datatype NoteOnRec = NoteOnRec(segment: SegmentId, event: Event)

  /** (device, channel, pitch): the three keys of the nested note-on map. */
  type NoteKey = (int, int, int)

  type NoteOnMap = map<NoteKey, seq<NoteOnRec>>

  function Records(m: NoteOnMap, k: NoteKey): seq<NoteOnRec>
  {
    if k in m then m[k] else []
  }

  // ----- the element-count scan run before XML parsing -----

  /** Elements opened in `s`: the positions of a `<` not followed by `/`. */
  function ElementCount(s: string): nat
  {
    if |s| < 2 then 0
    else ElementCount(s[..|s| - 1]) + (if s[|s| - 2] == '<' && s[|s| - 1] != '/' then 1 else 0)
  }

  /** Counting a concatenation: each part's elements, plus one when a `<`
      ending the first part opens an element in the second. */
  lemma {:induction false} ElementCountAppend(s: string, t: string)
    ensures ElementCount(s + t) == ElementCount(s) + ElementCount(t) +
      (if s != [] && t != [] && s[|s| - 1] == '<' && t[0] != '/' then 1 else 0)
    decreases |t|
  {
    if t == [] {
      assert s + t == s;
    } else if |t| == 1 {
      assert (s + t)[..|s + t| - 1] == s;
    } else {
      var u := t[..|t| - 1];
      assert (s + t)[..|s + t| - 1] == s + u;
      assert u[..|u|] == u && u[0] == t[0];
      ElementCountAppend(s, u);
      assert t[..|t| - 1] == u;
    }
  }

  /** The count never exceeds the number of adjacent character pairs. */
  lemma {:induction false} ElementCountBound(s: string)
    ensures ElementCount(s) <= (if |s| == 0 then 0 else |s| - 1)
  {
    if |s| >= 2 {
      ElementCountBound(s[..|s| - 1]);
    }
  }

  /** The loop bound as written, `fileContents.length() - 1` in unsigned
      64-bit arithmetic. */
  function AsWrittenLoopBound(length: nat): nat
  {
    (length - 1) % 0x1_0000_0000_0000_0000
  }

  /** The as-written scan reads `fileContents[i + 1]` for every `i` below its
      bound, so the last index it reads is the bound itself. That read stays
      within the string (its terminating null included) exactly when the
      string is not empty; for the empty string the bound wraps round to
      2^64 - 1. */
  lemma AsWrittenScanInBounds(length: nat)
    requires length < 0x1_0000_0000_0000_0000
    ensures AsWrittenLoopBound(length) <= length <==> length >= 1
    ensures length == 0 ==> AsWrittenLoopBound(length) == 0xFFFF_FFFF_FFFF_FFFF
  {
  }

  /** The element-count loop of `xmlParse`, with the bound guarded for the
      empty string. */
  method CountElements(fileContents: string) returns (elementCount: nat)
    ensures elementCount == ElementCount(fileContents)
  {
    elementCount := 0;
    if |fileContents| == 0 {
      return;
    }
    var i := 0;
    while i < |fileContents| - 1
      invariant 0 <= i <= |fileContents| - 1
      invariant elementCount == ElementCount(fileContents[..i + 1])
    {
      assert fileContents[..i + 2][..i + 1] == fileContents[..i + 1];
      if fileContents[i] == '<' && fileContents[i + 1] != '/' {
        elementCount := elementCount + 1;
      }
      i := i + 1;
    }
    assert fileContents[..i + 1] == fileContents;
  }

  // ----- recording bookkeeping -----

  /** The track filters that let an event from `device` on `channel` into a
      recording segment: any channel when negative, any device when
      `ALL_DEVICES`. */
  predicate Accepts(t: Track, device: int, channel: int)
  {
    (t.midiInputChannel < 0 || t.midiInputChannel == channel) &&
    (t.midiInputDevice == AllDevices || t.midiInputDevice == device)
  }

  /** The recording segments, in order, that take an event: their track
      exists and its filters accept the event. */
  function Targets(segs: seq<SegmentId>, tracks: map<int, Track>, segmentTrack: SegmentId -> int,
                   device: int, channel: int): (r: seq<SegmentId>)
    ensures |r| <= |segs|
  {
    if segs == [] then []
    else
      var s := segs[|segs| - 1];
      Targets(segs[..|segs| - 1], tracks, segmentTrack, device, channel) +
      (if Takes(tracks, segmentTrack, s, device, channel) then [s] else [])
  }

  /** The targets are exactly the recording segments that take the event. */
  lemma {:induction false} TargetsSpec(segs: seq<SegmentId>, tracks: map<int, Track>, segmentTrack: SegmentId -> int,
                                       device: int, channel: int, s: SegmentId)
    ensures s in Targets(segs, tracks, segmentTrack, device, channel) <==>
      s in segs && Takes(tracks, segmentTrack, s, device, channel)
  {
    if segs != [] {
      var init := segs[..|segs| - 1];
      TargetsSpec(init, tracks, segmentTrack, device, channel, s);
      assert segs == init + [segs[|segs| - 1]];
    }
  }

  /** Whether recording segment `s` takes the event: its track exists and
      accepts the device and channel. */
  predicate Takes(tracks: map<int, Track>, segmentTrack: SegmentId -> int, s: SegmentId, device: int, channel: int)
  {
    segmentTrack(s) in tracks && Accepts(tracks[segmentTrack(s)], device, channel)
  }

  /** A copy of `e` added to each target segment in turn. */
  function AddEach(m: map<SegmentId, multiset<Event>>, targets: seq<SegmentId>, e: Event): map<SegmentId, multiset<Event>>
  {
    if targets == [] then m
    else
      var m' := AddEach(m, targets[..|targets| - 1], e);
      var s := targets[|targets| - 1];
      m'[s := EventsOf(m', s) + multiset{e}]
  }

  /** Each target segment gains one copy of the event per time it is a
      target, and nothing else changes in any segment. */
  lemma {:induction false} AddEachCounts(m: map<SegmentId, multiset<Event>>, targets: seq<SegmentId>, e: Event,
                                         s: SegmentId, x: Event)
    ensures EventsOf(AddEach(m, targets, e), s)[x] ==
      EventsOf(m, s)[x] + (if x == e then multiset(targets)[s] else 0)
  {
    if targets != [] {
      var init, last := targets[..|targets| - 1], targets[|targets| - 1];
      assert targets == init + [last];
      AddEachStep(m, init, last, e);
      AddEachCounts(m, init, e, s, x);
      assert multiset(targets)[s] == multiset(init)[s] + (if last == s then 1 else 0);
    }
  }

  /** The note-on key of an event from `device` on `channel`; the pitch
      part is irrelevant when the event has none. */
  function PitchKey(ev: Event, device: int, channel: int): NoteKey
  {
    (device, channel, if GetInt(ev, PitchProperty).Some? then GetInt(ev, PitchProperty).value else 0)
  }

  /** One note-on record per target, in order. */
  function NoteRecords(targets: seq<SegmentId>, e: Event): seq<NoteOnRec>
  {
    if targets == [] then []
    else NoteRecords(targets[..|targets| - 1], e) + [NoteOnRec(targets[|targets| - 1], e)]
  }

  /** The note-on map after remembering `e` for each target under `key`; a
      key with no targets is not created. */
  function Remembered(m: NoteOnMap, key: NoteKey, targets: seq<SegmentId>, e: Event): NoteOnMap
  {
    if targets == [] then m else m[key := Records(m, key) + NoteRecords(targets, e)]
  }

  /** Remembering one more target appends one record under the key. */
  lemma RememberedStep(m: NoteOnMap, key: NoteKey, targets: seq<SegmentId>, s: SegmentId, e: Event)
    ensures var before := Remembered(m, key, targets, e);
      Remembered(m, key, targets + [s], e) == before[key := Records(before, key) + [NoteOnRec(s, e)]]
  {
    var t := targets + [s];
    assert t[..|t| - 1] == targets;
    assert NoteRecords(t, e) == NoteRecords(targets, e) + [NoteOnRec(s, e)];
    if targets != [] {
      assert Records(Remembered(m, key, targets, e), key) == Records(m, key) + NoteRecords(targets, e);
      assert Records(m, key) + NoteRecords(t, e) == Records(m, key) + NoteRecords(targets, e) + [NoteOnRec(s, e)];
    } else {
      assert NoteRecords(t, e) == [NoteOnRec(s, e)];
    }
  }

  /** The event a note-on becomes once its end is known: same onset and
      contents, duration up to `endTime`, a zero duration bumped to 1. */
  function Adjusted(e: Event, endTime: TimeT): (r: Event)
    ensures r.absoluteTime == e.absoluteTime
    ensures r.duration == (if endTime - e.absoluteTime == 0 then 1 else endTime - e.absoluteTime)
    ensures r.eventType == e.eventType && r.subOrdering == e.subOrdering && r.properties == e.properties
  {
    var newDuration := endTime - e.absoluteTime;
    e.(duration := if newDuration == 0 then 1 else newDuration)
  }

  /** Only an exactly-zero duration is corrected: a note-on after `endTime`
      keeps its negative duration. */
  lemma AdjustedKeepsNegative(e: Event, endTime: TimeT)
    requires e.absoluteTime > endTime
    ensures Adjusted(e, endTime).duration < 0
  {
  }

  /** The records with their events adjusted, each in the same segment. */
  function AdjustedRecords(recs: seq<NoteOnRec>, endTime: TimeT): seq<NoteOnRec>
  {
    if recs == [] then []
    else
      var last := recs[|recs| - 1];
      AdjustedRecords(recs[..|recs| - 1], endTime) + [NoteOnRec(last.segment, Adjusted(last.event, endTime))]
  }

  /** The adjusted records correspond one to one with the old ones: same
      segment, same onset, the duration set from `endTime`. */
  lemma {:induction false} AdjustedRecordsPointwise(recs: seq<NoteOnRec>, endTime: TimeT)
    ensures |AdjustedRecords(recs, endTime)| == |recs|
    ensures forall i :: 0 <= i < |recs| ==>
      AdjustedRecords(recs, endTime)[i] == NoteOnRec(recs[i].segment, Adjusted(recs[i].event, endTime))
  {
    if recs != [] {
      AdjustedRecordsPointwise(recs[..|recs| - 1], endTime);
    }
  }

  /** One record's event replaced by its adjusted copy in its segment. */
  function Replace(m: map<SegmentId, multiset<Event>>, rec: NoteOnRec, endTime: TimeT): map<SegmentId, multiset<Event>>
  {
    m[rec.segment := EventsOf(m, rec.segment) - multiset{rec.event} + multiset{Adjusted(rec.event, endTime)}]
  }

  function ReplaceAll(m: map<SegmentId, multiset<Event>>, recs: seq<NoteOnRec>, endTime: TimeT): map<SegmentId, multiset<Event>>
  {
    if recs == [] then m
    else Replace(ReplaceAll(m, recs[..|recs| - 1], endTime), recs[|recs| - 1], endTime)
  }

  /** Erasing the old event and then inserting the adjusted one is the
      replacement. */
  lemma ReplaceByEraseInsert(m: map<SegmentId, multiset<Event>>, rec: NoteOnRec, endTime: TimeT,
                             erased: multiset<Event>)
    requires erased == EventsOf(m, rec.segment) - multiset{rec.event}
    ensures m[rec.segment := erased][rec.segment := erased + multiset{Adjusted(rec.event, endTime)}] ==
      Replace(m, rec, endTime)
  {
  }

  /** Replacing an event that is in its segment keeps the segment's size and
      puts the adjusted copy in. */
  lemma ReplaceKeepsSize(m: map<SegmentId, multiset<Event>>, rec: NoteOnRec, endTime: TimeT)
    requires rec.event in EventsOf(m, rec.segment)
    ensures |EventsOf(Replace(m, rec, endTime), rec.segment)| == |EventsOf(m, rec.segment)|
    ensures Adjusted(rec.event, endTime) in EventsOf(Replace(m, rec, endTime), rec.segment)
  {
  }

  /** Segments no record refers to are untouched. */
  lemma {:induction false} ReplaceAllElsewhere(m: map<SegmentId, multiset<Event>>, recs: seq<NoteOnRec>,
                                               endTime: TimeT, s: SegmentId)
    requires forall i :: 0 <= i < |recs| ==> recs[i].segment != s
    ensures EventsOf(ReplaceAll(m, recs, endTime), s) == EventsOf(m, s)
  {
    if recs != [] {
      ReplaceAllElsewhere(m, recs[..|recs| - 1], endTime, s);
    }
  }

  /** The note-on map that replaces the old one: the adjusted records of
      every key in `keys` whose list is not empty; other keys are dropped. */
  function Tweaked(noteOn: NoteOnMap, keys: set<NoteKey>, endTime: TimeT): NoteOnMap
  {
    map k | k in keys && k in noteOn && |noteOn[k]| > 0 :: AdjustedRecords(noteOn[k], endTime)
  }

  /** Taking one more key in adds its adjusted list when that is not empty. */
  lemma TweakedStep(noteOn: NoteOnMap, keys: set<NoteKey>, k: NoteKey, endTime: TimeT)
    requires k in noteOn
    ensures Tweaked(noteOn, keys + {k}, endTime) ==
      if |noteOn[k]| > 0 then Tweaked(noteOn, keys, endTime)[k := AdjustedRecords(noteOn[k], endTime)]
      else Tweaked(noteOn, keys, endTime)
  {
  }

  /** Lexicographic order of note-on keys, the iteration order of the
      nested maps. */
  predicate KeyLe(a: NoteKey, b: NoteKey)
  {
    a.0 < b.0 || (a.0 == b.0 && (a.1 < b.1 || (a.1 == b.1 && a.2 <= b.2)))
  }

  lemma KeyLeOrder(a: NoteKey, b: NoteKey, c: NoteKey)
    ensures KeyLe(a, a)
    ensures KeyLe(a, b) || KeyLe(b, a)
    ensures KeyLe(a, b) && KeyLe(b, c) ==> KeyLe(a, c)
    ensures KeyLe(a, b) && KeyLe(b, a) ==> a == b
  {
  }

  lemma {:induction false} MinKeyExists(keys: set<NoteKey>)
    requires keys != {}
    ensures exists k :: k in keys && forall k' :: k' in keys ==> KeyLe(k, k')
    decreases |keys|
  {
    HasKey(keys);
    var x :| x in keys;
    if keys == {x} {
      KeyLeOrder(x, x, x);
    } else {
      MinKeyExists(keys - {x});
      var m :| m in keys - {x} && forall k' :: k' in keys - {x} ==> KeyLe(m, k');
      LeastWith(keys, x, m);
      var least := if KeyLe(x, m) then x else m;
      assert least in keys && forall k' :: k' in keys ==> KeyLe(least, k');
    }
  }

  /** The least of `keys` is `x` or the least of the others. */
  lemma LeastWith(keys: set<NoteKey>, x: NoteKey, m: NoteKey)
    requires x in keys && m in keys
    requires forall k' :: k' in keys - {x} ==> KeyLe(m, k')
    ensures var least := if KeyLe(x, m) then x else m;
      forall k' :: k' in keys ==> KeyLe(least, k')
  {
    var least := if KeyLe(x, m) then x else m;
    forall k' | k' in keys
      ensures KeyLe(least, k')
    {
      KeyLeOrder(x, m, k');
      if k' != x {
        assert KeyLe(m, k');
      }
    }
  }

  lemma HasKey(keys: set<NoteKey>)
    requires keys != {}
    ensures exists k :: k in keys
  {
    if forall k :: k !in keys {
      assert false;
    }
  }

  ghost function MinKey(keys: set<NoteKey>): (k: NoteKey)
    requires keys != {}
    ensures k in keys && forall k' :: k' in keys ==> KeyLe(k, k')
  {
    MinKeyExists(keys);
    var k :| k in keys && forall k' :: k' in keys ==> KeyLe(k, k'); k
  }

  /** The keys in iteration order. */
  ghost function SortedKeys(keys: set<NoteKey>): seq<NoteKey>
    decreases |keys|
  {
    if keys == {} then []
    else var k := MinKey(keys); [k] + SortedKeys(keys - {k})
  }

  /** Taking the least remaining key next keeps the visited keys a prefix of
      the sorted order. */
  lemma SortedKeysStep(all: set<NoteKey>, remaining: set<NoteKey>, done: seq<NoteKey>, k: NoteKey)
    requires remaining <= all && SortedKeys(all) == done + SortedKeys(remaining)
    requires k in remaining && forall k' :: k' in remaining ==> KeyLe(k, k')
    ensures SortedKeys(all) == (done + [k]) + SortedKeys(remaining - {k})
    ensures all - (remaining - {k}) == (all - remaining) + {k}
  {
    KeyLeOrder(k, MinKey(remaining), k);
    assert SortedKeys(remaining) == [k] + SortedKeys(remaining - {k});
  }

  /** The segments after adjusting, key by key in order, every non-empty
      list of `noteOn`. */
  ghost function UpdateAll(m: map<SegmentId, multiset<Event>>, keys: seq<NoteKey>, noteOn: NoteOnMap, endTime: TimeT)
    : map<SegmentId, multiset<Event>>
  {
    if keys == [] then m
    else
      var m' := UpdateAll(m, keys[..|keys| - 1], noteOn, endTime);
      var k := keys[|keys| - 1];
      if |Records(noteOn, k)| > 0 then ReplaceAll(m', Records(noteOn, k), endTime) else m'
  }

  class RosegardenDocument {
    var modified: bool
    var autoSaved: bool
    var quickMarkerTime: TimeT
    var title: string
    var absFilePath: string
    const composition: Composition
    /** The recording segments, in instrument order. */
    var recordMidiSegments: seq<SegmentId>
    var noteOnEvents: NoteOnMap

    /** The constructor (without autoload): unmodified, not auto-saved, no
        quick marker, set up as a new untitled document. */
    constructor (composition: Composition)
      ensures this.composition == composition
      ensures !modified && !autoSaved && quickMarkerTime == -1
      ensures title == "Untitled" && absFilePath == ""
      ensures recordMidiSegments == [] && noteOnEvents == map[]
    {
      this.composition := composition;
      modified, autoSaved := false, false;
      quickMarkerTime := -1;
      recordMidiSegments, noteOnEvents := [], map[];
      title, absFilePath := "", "";
      new;
      NewDocument();
    }

    method NewDocument()
      modifies this`modified, this`absFilePath, this`title
      ensures !modified && absFilePath == "" && title == "Untitled"
    {
      modified := false;
      absFilePath := "";
      title := "Untitled";
    }

    /** `setModified`: nothing when already modified; otherwise modified and
        no longer auto-saved. */
    method SetModified()
      modifies this`modified, this`autoSaved
      ensures modified
      ensures autoSaved == (old(modified) && old(autoSaved))
    {
      if modified {
        return;
      }
      modified := true;
      autoSaved := false;
    }

    method ClearModifiedStatus()
      modifies this`modified, this`autoSaved
      ensures !modified && autoSaved
    {
      modified := false;
      autoSaved := true;
    }

    /** `slotDocumentModified`: unlike `setModified`, always clears the
        auto-saved flag. */
    method SlotDocumentModified()
      modifies this`modified, this`autoSaved
      ensures modified && !autoSaved
    {
      modified := true;
      autoSaved := false;
    }

    /** `slotDocumentRestored`: clears the modified flag only. */
    method SlotDocumentRestored()
      modifies this`modified
      ensures !modified
    {
      modified := false;
    }

    method SlotSetPointerPosition(t: TimeT)
      modifies composition`position
      ensures composition.position == t
    {
      composition.SetPosition(t);
    }

    method SetQuickMarker()
      modifies this`quickMarkerTime
      ensures quickMarkerTime == composition.position
    {
      quickMarkerTime := composition.position;
    }

    /** `jumpToQuickMarker`: moves the pointer only when a marker was set. */
    method JumpToQuickMarker()
      modifies composition`position
      ensures quickMarkerTime >= 0 ==> composition.position == quickMarkerTime
      ensures quickMarkerTime < 0 ==> composition.position == old(composition.position)
    {
      if quickMarkerTime >= 0 {
        SlotSetPointerPosition(quickMarkerTime);
      }
    }

    /** `storeNoteOnEvent`: appends the record under the event's device,
        channel and pitch; fails, changing nothing, when the event has no
        integer pitch (where the event class throws). */
    method StoreNoteOnEvent(s: SegmentId, e: Event, device: int, channel: int) returns (ok: bool)
      modifies this`noteOnEvents
      ensures ok <==> GetInt(e, PitchProperty).Some?
      ensures !ok ==> noteOnEvents == old(noteOnEvents)
      ensures ok ==>
        var key := (device, channel, GetInt(e, PitchProperty).value);
        noteOnEvents == old(noteOnEvents)[key := Records(old(noteOnEvents), key) + [NoteOnRec(s, e)]] &&
        forall k :: k != key ==> Records(noteOnEvents, k) == Records(old(noteOnEvents), k)
    {
      var pitch := GetInt(e, PitchProperty);
      if pitch.None? {
        return false;
      }
      var key := (device, channel, pitch.value);
      noteOnEvents := noteOnEvents[key := Records(noteOnEvents, key) + [NoteOnRec(s, e)]];
      return true;
    }

    /** `insertRecordedEvent`: a copy of the event goes into every recording
        segment whose track exists and accepts the device and channel, and a
        note-on is remembered for each such insertion. A note-on without a
        pitch stops at the first insertion, as the exception does. */
    method InsertRecordedEvent(ev: Event, device: int, channel: int, isNoteOn: bool) returns (ok: bool)
      modifies composition`segmentEvents, this`noteOnEvents
      ensures var targets := Targets(recordMidiSegments, composition.tracks, composition.segmentTrack, device, channel);
        ok == !(isNoteOn && GetInt(ev, PitchProperty).None? && targets != []) &&
        composition.segmentEvents == AddEach(old(composition.segmentEvents), if ok then targets else targets[..1], ev) &&
        noteOnEvents == if ok && isNoteOn then Remembered(old(noteOnEvents), PitchKey(ev, device, channel), targets, ev)
                        else old(noteOnEvents)
    {
      var key := PitchKey(ev, device, channel);
      var pitchless := isNoteOn && GetInt(ev, PitchProperty).None?;
      ghost var segs, tracks := recordMidiSegments, composition.tracks;
      ghost var done: seq<SegmentId> := [];
      ok := true;
      var i := 0;
      while i < |recordMidiSegments|
        invariant 0 <= i <= |segs| && segs == recordMidiSegments && tracks == composition.tracks
        invariant done == Targets(segs[..i], tracks, composition.segmentTrack, device, channel)
        invariant pitchless ==> done == []
        invariant composition.segmentEvents == AddEach(old(composition.segmentEvents), done, ev)
        invariant noteOnEvents == if isNoteOn then Remembered(old(noteOnEvents), key, done, ev) else old(noteOnEvents)
      {
        TargetsStep(segs, i, tracks, composition.segmentTrack, device, channel);
        var s := recordMidiSegments[i];
        if Takes(composition.tracks, composition.segmentTrack, s, device, channel) {
          ok := InsertInto(s, ev, device, channel, isNoteOn, key, done, old(composition.segmentEvents), old(noteOnEvents));
          if !ok {
            TargetsPrefix(segs, i + 1, tracks, composition.segmentTrack, device, channel);
            assert done + [s] == [s];
            return;
          }
          done := done + [s];
        }
        i := i + 1;
      }
      assert segs[..i] == segs;
    }

    /** The body of the loop of `insertRecordedEvent` for a segment that
        takes the event. */
    method InsertInto(s: SegmentId, ev: Event, device: int, channel: int, isNoteOn: bool, key: NoteKey,
                      ghost done: seq<SegmentId>, ghost m0: map<SegmentId, multiset<Event>>, ghost n0: NoteOnMap)
      returns (ok: bool)
      requires key == PitchKey(ev, device, channel)
      requires composition.segmentEvents == AddEach(m0, done, ev)
      requires noteOnEvents == (if isNoteOn then Remembered(n0, key, done, ev) else n0)
      modifies composition`segmentEvents, this`noteOnEvents
      ensures composition.segmentEvents == AddEach(m0, done + [s], ev)
      ensures ok <==> !isNoteOn || GetInt(ev, PitchProperty).Some?
      ensures ok ==> noteOnEvents == (if isNoteOn then Remembered(n0, key, done + [s], ev) else n0)
      ensures !ok ==> noteOnEvents == old(noteOnEvents)
    {
      AddEachStep(m0, done, s, ev);
      composition.InsertEvent(s, ev);
      ok := true;
      if isNoteOn {
        ok := StoreNoteOnEvent(s, ev, device, channel);
        if ok {
          RememberedStep(n0, key, done, s, ev);
        }
      }
    }

    /** `adjustEndTimes`: every record's event is replaced in its segment by
        a copy ending at `endTime`, and the new records come back in order. */
    method AdjustEndTimes(recs: seq<NoteOnRec>, endTime: TimeT) returns (r: seq<NoteOnRec>)
      modifies composition`segmentEvents
      ensures r == AdjustedRecords(recs, endTime)
      ensures composition.segmentEvents == ReplaceAll(old(composition.segmentEvents), recs, endTime)
    {
      r := [];
      var i := 0;
      while i < |recs|
        invariant 0 <= i <= |recs|
        invariant r == AdjustedRecords(recs[..i], endTime)
        invariant composition.segmentEvents == ReplaceAll(old(composition.segmentEvents), recs[..i], endTime)
      {
        assert recs[..i + 1][..i] == recs[..i];
        var adjusted := AdjustOne(recs[i], endTime);
        r := r + [adjusted];
        i := i + 1;
      }
      assert recs[..i] == recs;
    }

    /** The body of the loop of `adjustEndTimes`: the old event is erased
        from its segment and the adjusted copy inserted. */
    method AdjustOne(rec: NoteOnRec, endTime: TimeT) returns (adjusted: NoteOnRec)
      modifies composition`segmentEvents
      ensures adjusted == NoteOnRec(rec.segment, Adjusted(rec.event, endTime))
      ensures composition.segmentEvents == Replace(old(composition.segmentEvents), rec, endTime)
    {
      var oldEvent := rec.event;
      var newDuration := endTime - oldEvent.absoluteTime;
      if newDuration == 0 {
        newDuration := 1;
      }
      var newEvent := oldEvent.(duration := newDuration);
      var segment := rec.segment;
      ghost var erased := EventsOf(composition.segmentEvents, segment) - multiset{oldEvent};
      ReplaceByEraseInsert(composition.segmentEvents, rec, endTime, erased);
      composition.EraseEvent(segment, oldEvent);
      composition.InsertEvent(segment, newEvent);
      adjusted := NoteOnRec(segment, newEvent);
    }

    /** `updateRecordingMIDISegment`: nothing when no MIDI is being recorded;
        otherwise every non-empty note-on list is adjusted to end at the
        pointer, key by key in order, and the map keeps only those lists. */
    method UpdateRecordingMidiSegment()
      modifies composition`segmentEvents, this`noteOnEvents
      ensures recordMidiSegments == [] ==>
        noteOnEvents == old(noteOnEvents) && composition.segmentEvents == old(composition.segmentEvents)
      ensures recordMidiSegments != [] ==>
        noteOnEvents == Tweaked(old(noteOnEvents), old(noteOnEvents).Keys, composition.position) &&
        composition.segmentEvents ==
          UpdateAll(old(composition.segmentEvents), SortedKeys(old(noteOnEvents).Keys), old(noteOnEvents), composition.position)
    {
      if recordMidiSegments == [] {
        return;
      }
      var noteOn := noteOnEvents;
      var endTime := composition.position;
      var tweaked: NoteOnMap := map[];
      var remaining := noteOn.Keys;
      ghost var done: seq<NoteKey> := [];
      while remaining != {}
        invariant remaining <= noteOn.Keys && endTime == composition.position
        invariant SortedKeys(noteOn.Keys) == done + SortedKeys(remaining)
        invariant tweaked == Tweaked(noteOn, noteOn.Keys - remaining, endTime)
        invariant composition.segmentEvents == UpdateAll(old(composition.segmentEvents), done, noteOn, endTime)
        decreases |remaining|
      {
        MinKeyExists(remaining);
        var k :| k in remaining && forall k' :: k' in remaining ==> KeyLe(k, k');
        SortedKeysStep(noteOn.Keys, remaining, done, k);
        ghost var done' := done + [k];
        tweaked := UpdateKey(noteOn, k, endTime, tweaked, noteOn.Keys - remaining, done, old(composition.segmentEvents));
        done := done';
        remaining := remaining - {k};
      }
      assert noteOn.Keys - remaining == noteOn.Keys;
      assert SortedKeys(remaining) == [];
      assert SortedKeys(noteOn.Keys) == done;
      noteOnEvents := tweaked;
    }

    /** One pass of the loop of `updateRecordingMIDISegment`, over key `k`. */
    method UpdateKey(noteOn: NoteOnMap, k: NoteKey, endTime: TimeT, tweaked: NoteOnMap,
                     ghost keysDone: set<NoteKey>, ghost done: seq<NoteKey>, ghost m0: map<SegmentId, multiset<Event>>)
      returns (tweaked': NoteOnMap)
      requires k in noteOn
      requires tweaked == Tweaked(noteOn, keysDone, endTime)
      requires composition.segmentEvents == UpdateAll(m0, done, noteOn, endTime)
      modifies composition`segmentEvents
      ensures tweaked' == Tweaked(noteOn, keysDone + {k}, endTime)
      ensures composition.segmentEvents == UpdateAll(m0, done + [k], noteOn, endTime)
    {
      TweakedStep(noteOn, keysDone, k, endTime);
      UpdateAllStep(m0, done, k, noteOn, endTime);
      tweaked' := tweaked;
      var recs := noteOn[k];
      if |recs| > 0 {
        var adjusted := AdjustEndTimes(recs, endTime);
        tweaked' := tweaked[k := adjusted];
      }
    }
  }

  lemma UpdateAllStep(m: map<SegmentId, multiset<Event>>, keys: seq<NoteKey>, k: NoteKey, noteOn: NoteOnMap, endTime: TimeT)
    requires k in noteOn
    ensures UpdateAll(m, keys + [k], noteOn, endTime) ==
      if |noteOn[k]| > 0 then ReplaceAll(UpdateAll(m, keys, noteOn, endTime), noteOn[k], endTime)
      else UpdateAll(m, keys, noteOn, endTime)
  {
    var t := keys + [k];
    assert t[..|t| - 1] == keys;
  }

  lemma TargetsStep(segs: seq<SegmentId>, i: int, tracks: map<int, Track>, segmentTrack: SegmentId -> int,
                    device: int, channel: int)
    requires 0 <= i < |segs|
    ensures Targets(segs[..i + 1], tracks, segmentTrack, device, channel) ==
      Targets(segs[..i], tracks, segmentTrack, device, channel) +
      (if Takes(tracks, segmentTrack, segs[i], device, channel) then [segs[i]] else [])
  {
    assert segs[..i + 1][..i] == segs[..i];
  }

  lemma AddEachStep(m: map<SegmentId, multiset<Event>>, targets: seq<SegmentId>, s: SegmentId, e: Event)
    ensures AddEach(m, targets + [s], e) ==
      AddEach(m, targets, e)[s := EventsOf(AddEach(m, targets, e), s) + multiset{e}]
  {
    var t := targets + [s];
    assert t[..|t| - 1] == targets;
  }

  /** Scanning fewer recording segments finds a prefix of the targets. */
  lemma {:induction false} TargetsPrefix(segs: seq<SegmentId>, n: int, tracks: map<int, Track>,
                                         segmentTrack: SegmentId -> int, device: int, channel: int)
    requires 0 <= n <= |segs|
    ensures Targets(segs[..n], tracks, segmentTrack, device, channel) <=
      Targets(segs, tracks, segmentTrack, device, channel)
    decreases |segs|
  {
    if n < |segs| {
      var init := segs[..|segs| - 1];
      assert init[..n] == segs[..n];
      TargetsPrefix(init, n, tracks, segmentTrack, device, channel);
    } else {
      assert segs[..n] == segs;
    }
  }
}
