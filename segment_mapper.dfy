// Segment mappers turn a segment of the composition into the buffer of
// MappedEvents the sequencer plays. This module holds the rules shared by all
// mappers (repeat count, the archive/solo/mute decision, the track id, the
// factory) and the audio mapper, which expands a (possibly repeating) audio
// segment into one audio trigger per repetition.
module SegmentMappers {
  import opened Base
  import opened MappedEvents

  /** `UINT_MAX`, the track id reported when a mapper has no segment. */
  const UIntMax: int := 0xFFFF_FFFF

  datatype SegmentType = InternalSegment | AudioSegment | OtherSegment

  /** The segment properties the mappers read. */
  datatype Segment = Segment(
    segmentType: SegmentType,
    track: int,
    startTime: TimeT,
    endMarkerTime: TimeT,
    repeating: bool,
    repeatEndTime: TimeT,
    delay: TimeT,
    realTimeDelay: RealTime,
    audioStartTime: RealTime,
    audioEndTime: RealTime,
    audioFileId: int,
    runtimeId: int,
    autoFading: bool,
    fadeInTime: RealTime,
    fadeOutTime: RealTime)

  datatype Track = Track(id: int, instrument: int)

  /** The composition queries the audio mapper uses: the tracks by id and the
      musical-to-real time conversion (`getElapsedRealTime`), left abstract. */
  datatype Composition = Composition(tracks: map<int, Track>, elapsedRealTime: TimeT -> RealTime)

  /** The `ControlBlock` queries: archived, muted and soloed tracks, and
      whether solo mode is on. */
  datatype ControlBlock = ControlBlock(archived: set<int>, muted: set<int>, soloed: set<int>, anyInSolo: bool)

  /** `getSegmentRepeatCount`: 0 unless the segment repeats and has a
      positive duration; otherwise one more than the number of whole
      durations from the segment end to the repeat end, the division
      truncating toward zero. */
  function SegmentRepeatCount(s: Segment): int
  {
    var duration := s.endMarkerTime - s.startTime;
    if s.repeating && duration > 0 then
      1 + CDiv(s.repeatEndTime - s.endMarkerTime, duration)
    else 0
  }

  /** A segment that does not repeat, or has no positive duration, has no
      repeats. */
  lemma RepeatCountZeroUnlessRepeating(s: Segment)
    requires !s.repeating || s.endMarkerTime - s.startTime <= 0
    ensures SegmentRepeatCount(s) == 0
  {
  }

  /** With the repeat end at or after the segment end, the count is the
      number `n` of whole copies of the segment that fit between its start
      and the repeat end: `start + n*duration <= repeatEnd < start + (n+1)*duration`. */
  lemma RepeatCountCovers(s: Segment)
    requires s.repeating && s.endMarkerTime - s.startTime > 0
    requires s.repeatEndTime >= s.endMarkerTime
    ensures var n, d := SegmentRepeatCount(s), s.endMarkerTime - s.startTime;
      n >= 1 && s.startTime + n * d <= s.repeatEndTime < s.startTime + (n + 1) * d
  {
    var d := s.endMarkerTime - s.startTime;
    var r := s.repeatEndTime - s.endMarkerTime;
    CDivNonNegative(r, d);
    var q := r / d;
    assert d * q <= r < d * q + d;
    var n := SegmentRepeatCount(s);
    assert n == 1 + q;
    assert n * d == d * q + d;
    assert (n + 1) * d == d * q + 2 * d;
  }

  /** A repeat end less than one duration before the segment end still
      counts one repeat: C++ division truncates `-x / d` to 0 where the
      floor would give -1. */
  lemma RepeatCountTruncates(s: Segment)
    requires s.repeating && s.endMarkerTime - s.startTime > 0
    requires s.endMarkerTime - (s.endMarkerTime - s.startTime) < s.repeatEndTime < s.endMarkerTime
    ensures SegmentRepeatCount(s) == 1
  {
    var d := s.endMarkerTime - s.startTime;
    var r := s.repeatEndTime - s.endMarkerTime;
    assert -d < r < 0;
    assert Abs(r) / Abs(d) == 0;
  }

  /** `mutedEtc`: archived tracks are silent; in solo mode exactly the
      non-soloed tracks are silent; otherwise the mute flag decides. */
  function MutedEtc(cb: ControlBlock, track: int): bool
  {
    if track in cb.archived then true
    else if cb.anyInSolo then track !in cb.soloed
    else track in cb.muted
  }

  /** Archiving overrides solo and mute. */
  lemma ArchivedAlwaysMuted(cb: ControlBlock, track: int)
    requires track in cb.archived
    ensures forall solo: set<int>, muted: set<int>, any: bool ::
      MutedEtc(ControlBlock(cb.archived, muted, solo, any), track)
  {
  }

  /** In solo mode the mute flags play no part: the decision is "not soloed"
      for every unarchived track, whatever is muted. */
  lemma SoloIgnoresMute(cb: ControlBlock, track: int, muted: set<int>)
    requires cb.anyInSolo && track !in cb.archived
    ensures MutedEtc(cb, track) == (track !in cb.soloed)
    ensures MutedEtc(cb.(muted := muted), track) == MutedEtc(cb, track)
  {
  }

  /** Out of solo mode, an unarchived track is silent exactly when muted,
      whatever is soloed. */
  lemma NoSoloMuteDecides(cb: ControlBlock, track: int, soloed: set<int>)
    requires !cb.anyInSolo && track !in cb.archived
    ensures MutedEtc(cb, track) == (track in cb.muted)
    ensures MutedEtc(cb.(soloed := soloed), track) == MutedEtc(cb, track)
  {
  }

  /** `getTrackID`: the segment's track, or `UINT_MAX` without a segment. */
  function TrackID(segment: Option<Segment>): (id: int)
    ensures segment.Some? ==> id == segment.value.track
    ensures segment.None? ==> id == UIntMax
  {
    match segment
    case Some(s) => s.track
    case None => UIntMax
  }

  datatype MapperKind = InternalMapper | AudioMapper

  /** A mapper as the factory hands it out; `initialised` records that its
      buffer has been filled by `init()`. */
  datatype Mapper = Mapper(kind: MapperKind, segment: Segment, initialised: bool)

  /** `makeMapperForSegment`: no mapper for a missing segment or a segment
      that is neither internal nor audio; otherwise a mapper of the matching
      kind, already initialised. */
  function MakeMapperForSegment(segment: Option<Segment>): (r: Option<Mapper>)
    ensures r.None? <==> segment.None? || segment.value.segmentType == OtherSegment
    ensures r.Some? ==>
      r.value.segment == segment.value && r.value.initialised &&
      (r.value.kind == InternalMapper <==> segment.value.segmentType == InternalSegment)
  {
    match segment
    case None => None
    case Some(s) =>
      match s.segmentType
      case InternalSegment => Some(Mapper(InternalMapper, s, true))
      case AudioSegment => Some(Mapper(AudioMapper, s, true))
      case OtherSegment => None
  }

  /** `AudioSegmentMapper::calculateSize`: room for one event per repeat
      plus one, and none without a segment. */
  function CalculateSize(segment: Option<Segment>): int
  {
    match segment
    case None => 0
    case Some(s) => SegmentRepeatCount(s) + 1
  }

  /** The play times the fill loop emits from repetition `k` on: the start of
      repetition `k`, `k+1`, ... up to repetition `last`, stopping at the first
      one at or after `repeatEnd`. */
  function PlayTimesFrom(start: TimeT, duration: TimeT, repeatEnd: TimeT, last: int, k: nat): seq<TimeT>
    decreases if last + 1 - k > 0 then last + 1 - k else 0
  {
    if k > last || start + k * duration >= repeatEnd then []
    else [start + k * duration] + PlayTimesFrom(start, duration, repeatEnd, last, k + 1)
  }

  /** The repeat end the fill loop uses: the segment end unless the repeat
      count is positive. */
  function LoopEnd(s: Segment): TimeT
  {
    if SegmentRepeatCount(s) > 0 then s.repeatEndTime else s.endMarkerTime
  }

  /** All play times of an audio segment. */
  function PlayTimes(s: Segment): seq<TimeT>
  {
    PlayTimesFrom(s.startTime, s.endMarkerTime - s.startTime, LoopEnd(s), SegmentRepeatCount(s), 0)
  }

  /** The play times from repetition `k` are `start + j*duration` for
      consecutive `j` from `k`, each before the repeat end, at most one per
      repetition up to `last`; and emission stops early only at the first
      repetition that starts at or after the repeat end. */
  lemma {:induction false} PlayTimesFromShape(start: TimeT, duration: TimeT, repeatEnd: TimeT, last: int, k: nat)
    ensures |PlayTimesFrom(start, duration, repeatEnd, last, k)| <= (if last + 1 - k > 0 then last + 1 - k else 0)
    ensures forall i :: 0 <= i < |PlayTimesFrom(start, duration, repeatEnd, last, k)| ==>
      PlayTimesFrom(start, duration, repeatEnd, last, k)[i] == start + (k + i) * duration &&
      PlayTimesFrom(start, duration, repeatEnd, last, k)[i] < repeatEnd
    ensures var r := PlayTimesFrom(start, duration, repeatEnd, last, k);
      |r| < (if last + 1 - k > 0 then last + 1 - k else 0) ==> start + (k + |r|) * duration >= repeatEnd
    decreases if last + 1 - k > 0 then last + 1 - k else 0
  {
    if k > last || start + k * duration >= repeatEnd {
    } else {
      PlayTimesFromShape(start, duration, repeatEnd, last, k + 1);
      var rest := PlayTimesFrom(start, duration, repeatEnd, last, k + 1);
      var all := PlayTimesFrom(start, duration, repeatEnd, last, k);
      assert all == [start + k * duration] + rest;
      forall i | 0 <= i < |all|
        ensures all[i] == start + (k + i) * duration && all[i] < repeatEnd
      {
        if i > 0 {
          assert all[i] == rest[i - 1];
        }
      }
    }
  }

  /** The emitted play times increase strictly when the segment has a
      positive duration. */
  lemma PlayTimesIncrease(s: Segment, i: int, j: int)
    requires s.endMarkerTime - s.startTime > 0
    requires 0 <= i < j < |PlayTimes(s)|
    ensures PlayTimes(s)[i] < PlayTimes(s)[j]
  {
    var d := s.endMarkerTime - s.startTime;
    var t := PlayTimes(s);
    PlayTimesFromShape(s.startTime, d, LoopEnd(s), SegmentRepeatCount(s), 0);
    assert t[i] == s.startTime + (0 + i) * d;
    assert t[j] == s.startTime + (0 + j) * d;
    MulMonotone(i, j, d);
  }

  lemma MulMonotone(i: int, j: int, d: int)
    requires i < j && 0 < d
    ensures i * d < j * d
  {
    assert j * d == i * d + (j - i) * d;
  }

  /** The buffer `calculateSize` reserves always holds the events the fill
      loop writes. */
  lemma PlayTimesFit(s: Segment)
    ensures |PlayTimes(s)| <= (if CalculateSize(Some(s)) > 0 then CalculateSize(Some(s)) else 0)
  {
    PlayTimesFromShape(s.startTime, s.endMarkerTime - s.startTime, LoopEnd(s), SegmentRepeatCount(s), 0);
  }

  /** The documented over-count: a segment from 0 to 100 repeating until 250
      has repeat count 2 and gets three triggers, at 0, 100 and 200, the last
      one a partial repetition. */
  lemma OverCountExample(s: Segment)
    requires s.startTime == 0 && s.endMarkerTime == 100 && s.repeating && s.repeatEndTime == 250
    ensures SegmentRepeatCount(s) == 2
    ensures PlayTimes(s) == [0, 100, 200]
  {
    assert CDiv(150, 100) == 1;
    assert PlayTimesFrom(0, 100, 250, 2, 3) == [];
    assert PlayTimesFrom(0, 100, 250, 2, 2) == [200];
    assert PlayTimesFrom(0, 100, 250, 2, 1) == [100, 200];
  }

  /** A non-repeating segment of positive duration gets exactly one trigger,
      at its start. */
  lemma SingleTriggerWithoutRepeat(s: Segment)
    requires !s.repeating && s.endMarkerTime - s.startTime > 0
    ensures PlayTimes(s) == [s.startTime]
  {
    assert PlayTimesFrom(s.startTime, s.endMarkerTime - s.startTime, s.endMarkerTime, 0, 1) == [];
  }

  /** The audio trigger for one repetition: the audio-event constructor
      (instrument, file id, real event time, audio duration, start marker),
      stamped with the track and runtime segment id, and carrying the fades
      only for an auto-fading segment. */
  function AudioTrigger(comp: Composition, s: Segment, track: Track, playTime: TimeT): (e: MappedEvent)
    ensures e.eventType == Audio && e.trackId == track.id && e.runtimeSegmentId == s.runtimeId
    ensures e.instrument == track.instrument
    ensures e.eventTime == comp.elapsedRealTime(playTime + s.delay) + s.realTimeDelay
    ensures e.duration == s.audioEndTime - s.audioStartTime && e.audioStartMarker == s.audioStartTime
    ensures e.autoFade == s.autoFading
    ensures s.autoFading ==> e.fadeInTime == s.fadeInTime && e.fadeOutTime == s.fadeOutTime
    ensures !s.autoFading ==> e.fadeInTime == 0 && e.fadeOutTime == 0
  {
    var eventTime := comp.elapsedRealTime(playTime + s.delay) + s.realTimeDelay;
    var e := AudioMappedEvent(track.instrument, s.audioFileId, eventTime,
                              s.audioEndTime - s.audioStartTime, s.audioStartTime);
    var stamped := e.(trackId := track.id, runtimeSegmentId := s.runtimeId);
    if s.autoFading then
      stamped.(autoFade := true, fadeInTime := s.fadeInTime, fadeOutTime := s.fadeOutTime)
    else stamped
  }

  /** `shouldPlay`: a muted (archived, non-soloed) segment never plays;
      otherwise an event plays unless it ended before the slice start. */
  function ShouldPlay(cb: ControlBlock, s: Segment, e: MappedEvent, sliceStart: RealTime): (r: bool)
    ensures MutedEtc(cb, s.track) ==> !r
    ensures !MutedEtc(cb, s.track) ==> (r <==> !EndedBefore(e, sliceStart))
  {
    if MutedEtc(cb, s.track) then false else !EndedBefore(e, sliceStart)
  }

  /** One step of the fill loop: when the remaining play times start with
      `p`, `p` is the next one and the split point moves past it. */
  lemma Advance(times: seq<TimeT>, index: nat, p: TimeT, rest: seq<TimeT>)
    requires index <= |times| && times[index..] == [p] + rest
    ensures index < |times| && times[index] == p
    ensures times[index + 1..] == rest
  {
    assert times[index] == times[index..][0];
    assert times[index + 1..] == times[index..][1..];
  }

  /** The audio mapper: its segment and the event buffer `init()` sized with
      `calculateSize()`; `filled` is the buffer's logical size. */
  class AudioSegmentMapper {
    var segment: Option<Segment>
    var buffer: array<MappedEvent>
    var filled: int

    constructor (s: Option<Segment>)
      ensures segment == s && filled == 0
      ensures buffer.Length == (if CalculateSize(s) > 0 then CalculateSize(s) else 0)
    {
      segment := s;
      var n := CalculateSize(s);
      buffer := new MappedEvent[if n > 0 then n else 0];
      filled := 0;
    }

    /** `fillBuffer`: nothing happens when the segment's track does not
        exist; otherwise one audio trigger per play time is written from the
        start of the buffer, and the buffer is cut to that many events. */
    method FillBuffer(comp: Composition)
      requires segment.Some? && buffer.Length >= CalculateSize(segment)
      modifies this`filled, buffer
      ensures segment.value.track !in comp.tracks ==> filled == old(filled) && buffer[..] == old(buffer[..])
      ensures segment.value.track in comp.tracks ==>
        var times := PlayTimes(segment.value);
        filled == |times| && filled <= buffer.Length &&
        forall i :: 0 <= i < filled ==>
          buffer[i] == AudioTrigger(comp, segment.value, comp.tracks[segment.value.track], times[i])
    {
      var s := segment.value;
      if s.track !in comp.tracks {
        return;
      }
      var track := comp.tracks[s.track];
      var segmentStartTime := s.startTime;
      var segmentEndTime := s.endMarkerTime;
      var segmentDuration := segmentEndTime - segmentStartTime;
      var repeatEndTime := segmentEndTime;
      var repeatCount := SegmentRepeatCount(s);
      if repeatCount > 0 {
        repeatEndTime := s.repeatEndTime;
      }
      ghost var times := PlayTimes(s);
      ghost var want := seq(|times|, i requires 0 <= i < |times| => AudioTrigger(comp, s, track, times[i]));
      PlayTimesFit(s);
      var index := 0;
      var repeatNo := 0;
      while repeatNo <= repeatCount
        invariant 0 <= repeatNo && index == repeatNo && index <= |times|
        invariant times[index..] == PlayTimesFrom(segmentStartTime, segmentDuration, repeatEndTime, repeatCount, repeatNo)
        invariant forall i :: 0 <= i < index ==> buffer[i] == want[i]
        decreases repeatCount + 1 - repeatNo
      {
        var playTime := segmentStartTime + repeatNo * segmentDuration;
        if playTime >= repeatEndTime {
          break;
        }
        Advance(times, index, playTime,
                PlayTimesFrom(segmentStartTime, segmentDuration, repeatEndTime, repeatCount, repeatNo + 1));
        var e := AudioTrigger(comp, s, track, playTime);
        assert e == want[index];
        buffer[index] := e;
        index := index + 1;
        repeatNo := repeatNo + 1;
      }
      assert index == |times|;
      filled := index;
    }
  }
}
