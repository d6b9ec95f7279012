// The sequencer's transport state machine: play/record/quit status, the song
// and fetch positions, the loop, the transport token with its request FIFO,
// the asynchronous event queues and the MIDI input filter. The sound driver
// is absent (every call into it is commented out in the source), and the
// segment meta-iterator, whose internals are not part of this model, is
// represented by the log of calls made to it.
module Sequencers {
  import opened Base
  import opened MappedEvents

  datatype TransportStatus =
    | Stopped | Playing | Recording | Stopping
    | StartingToPlay | StartingToRecord | RecordingArmed | Quit

  datatype TransportRequest =
    | TransportNoChange | TransportStop | TransportStart | TransportPlay
    | TransportRecord | TransportJumpToTime | TransportStartAtTime | TransportStopAtTime

  /** 160 ms, the low-latency read-ahead window. */
  const ReadAhead: RealTime := 160000000

  /** The calls the sequencer makes on its segment meta-iterator; mappers are
      identified by an id. */
  datatype MetaCall =
    | JumpToTime(t: RealTime)
    | FetchSlice(start: RealTime, end: RealTime)
    | ResetIteratorForSegment(mapper: int, immediate: bool)
    | AddSegment(mapper: int)
    | RemoveSegment(mapper: int)
    | ClearSegments
    | GetAudioEvents

  /** One `setProperty` call on a studio object. */
  datatype PropertySet = PropertySet(id: int, property: string, value: real)

  /** The property calls `setMappedProperties` makes: one per index below
      the length of the shortest list, for objects that exist. */
  function PropertyWrites(objects: set<int>, ids: seq<int>, properties: seq<string>,
                          values: seq<real>, n: nat): seq<PropertySet>
    requires n <= |ids| && n <= |properties| && n <= |values|
  {
    if n == 0 then []
    else
      PropertyWrites(objects, ids, properties, values, n - 1) +
      (if ids[n - 1] in objects then [PropertySet(ids[n - 1], properties[n - 1], values[n - 1])] else [])
  }

  function Min3(a: int, b: int, c: int): int {
    if a <= b && a <= c then a else if b <= c then b else c
  }

  /** Every property write targets an existing object, and each index of the
      lists yields at most one write. */
  lemma {:induction false} PropertyWritesSound(objects: set<int>, ids: seq<int>, properties: seq<string>,
                                               values: seq<real>, n: nat)
    requires n <= |ids| && n <= |properties| && n <= |values|
    ensures |PropertyWrites(objects, ids, properties, values, n)| <= n
    ensures forall w :: w in PropertyWrites(objects, ids, properties, values, n) ==> w.id in objects
    ensures (forall i :: 0 <= i < n ==> ids[i] in objects) ==>
      |PropertyWrites(objects, ids, properties, values, n)| == n
  {
    if n > 0 {
      PropertyWritesSound(objects, ids, properties, values, n - 1);
    }
  }

  /** Whether `applyFiltering` drops an event: its type bit is in the filter,
      or control-device filtering is on and it was recorded on the control
      device. */
  predicate Matches(e: MappedEvent, filter: bv32, filterControlDevice: bool)
  {
    TypeBit(e.eventType) & filter != 0 || (filterControlDevice && e.recordedDevice == ControlDevice)
  }

  /** The events that survive the filter, in their original order. */
  function Filtered(events: seq<MappedEvent>, filter: bv32, filterControlDevice: bool): seq<MappedEvent>
  {
    if events == [] then []
    else
      var last := events[|events| - 1];
      Filtered(events[..|events| - 1], filter, filterControlDevice) +
      (if Matches(last, filter, filterControlDevice) then [] else [last])
  }

  /** Filtering removes exactly the matching events: no survivor matches,
      and every non-matching event survives as often as it occurred. */
  lemma {:induction false} FilteredExactly(events: seq<MappedEvent>, filter: bv32, filterControlDevice: bool)
    ensures forall e :: e in Filtered(events, filter, filterControlDevice) ==> !Matches(e, filter, filterControlDevice)
    ensures forall e ::
      multiset(Filtered(events, filter, filterControlDevice))[e] ==
      (if Matches(e, filter, filterControlDevice) then 0 else multiset(events)[e])
  {
    if events != [] {
      var init := events[..|events| - 1];
      var last := events[|events| - 1];
      FilteredExactly(init, filter, filterControlDevice);
      assert events == init + [last];
      assert multiset(events) == multiset(init) + multiset{last};
    }
  }

  /** Filtering keeps the order: filtering a concatenation filters each part. */
  lemma {:induction false} FilteredAppend(a: seq<MappedEvent>, b: seq<MappedEvent>, filter: bv32, filterControlDevice: bool)
    ensures Filtered(a + b, filter, filterControlDevice) ==
      Filtered(a, filter, filterControlDevice) + Filtered(b, filter, filterControlDevice)
    decreases |b|
  {
    if b != [] {
      var init := b[..|b| - 1];
      var last := b[|b| - 1];
      assert (a + b)[..|a + b| - 1] == a + init;
      assert (a + b)[|a + b| - 1] == last;
      FilteredAppend(a, init, filter, filterControlDevice);
    } else {
      assert a + b == a;
    }
  }

  /** `applyFiltering`: walks the list and erases every matching event. */
  method ApplyFiltering(events: seq<MappedEvent>, filter: bv32, filterControlDevice: bool)
    returns (kept: seq<MappedEvent>)
    ensures kept == Filtered(events, filter, filterControlDevice)
  {
    kept := [];
    var i := 0;
    while i < |events|
      invariant 0 <= i <= |events|
      invariant kept == Filtered(events[..i], filter, filterControlDevice)
    {
      assert events[..i + 1][..i] == events[..i];
      if !Matches(events[i], filter, filterControlDevice) {
        kept := kept + [events[i]];
      }
      i := i + 1;
    }
    assert events[..i] == events;
  }

  /** The loop-end clamp of `keepPlaying`: the read-ahead end, cut to one
      nanosecond before the loop end when looping and the window reaches it. */
  function FetchEnd(songPosition: RealTime, looping: bool, loopEnd: RealTime): (r: RealTime)
    ensures r <= songPosition + ReadAhead
    ensures looping ==> r < loopEnd
    ensures r != songPosition + ReadAhead ==> looping && r == loopEnd - 1
  {
    var fetchEnd := songPosition + ReadAhead;
    if looping && fetchEnd >= loopEnd then loopEnd - 1 else fetchEnd
  }

  class RosegardenSequencer {
    var status: TransportStatus
    var songPosition: RealTime
    var lastFetchSongPosition: RealTime
    var lastStartTime: RealTime
    var loopStart: RealTime
    var loopEnd: RealTime
    var transportToken: int
    var transportRequests: seq<(TransportRequest, RealTime)>
    var asyncOutQueue: seq<MappedEvent>
    var asyncInQueue: seq<MappedEvent>
    /** The ids of the studio's mapped objects, and the property calls made on them. */
    var studioObjects: set<int>
    var propertyLog: seq<PropertySet>
    var metaCalls: seq<MetaCall>
    /** The shared data block's position pointer, which `play` and `jumpTo` publish. */
    var positionPointer: RealTime

    /** The constructor: with no sound driver created, the sequencer ends up
        in QUIT; positions and the loop are zero and the token starts at 1. */
    constructor ()
      ensures status == TransportStatus.Quit
      ensures songPosition == 0 && lastFetchSongPosition == 0 && lastStartTime == 0
      ensures loopStart == 0 && loopEnd == 0 && transportToken == 1
      ensures transportRequests == [] && asyncOutQueue == [] && asyncInQueue == []
      ensures studioObjects == {} && propertyLog == [] && metaCalls == []
    {
      status := Stopped;
      songPosition, lastFetchSongPosition, lastStartTime := 0, 0, 0;
      loopStart, loopEnd := 0, 0;
      transportToken := 1;
      transportRequests := [];
      asyncOutQueue, asyncInQueue := [], [];
      studioObjects, propertyLog := {}, [];
      metaCalls := [];
      positionPointer := 0;
      // no driver: the constructor gives up
      status := TransportStatus.Quit;
    }

    /** `isLooping()` of the class header: the loop is set when its bounds differ. */
    function IsLooping(): bool
      reads this
    {
      loopStart != loopEnd
    }

    method Quit()
      modifies this`status
      ensures status == TransportStatus.Quit
    {
      status := TransportStatus.Quit;
    }

    /** `punchOut`: leaves RECORDING for PLAYING and reports whether it did. */
    method PunchOut() returns (r: bool)
      modifies this`status
      ensures r <==> old(status) == Recording
      ensures status == (if old(status) == Recording then Playing else old(status))
    {
      if status == Recording {
        status := Playing;
        return true;
      }
      return false;
    }

    /** `play(time)`: nothing to do while already playing; from RECORDING it
        switches to PLAYING and then punches out, which then fails; otherwise
        it moves to `time` and starts playing unless it is starting to record. */
    method Play(time: RealTime) returns (r: bool)
      modifies this`status, this`songPosition, this`positionPointer
      ensures old(status) in {Playing, StartingToPlay} ==>
        r && status == old(status) && songPosition == old(songPosition) && positionPointer == old(positionPointer)
      ensures old(status) == Recording ==>
        !r && status == Playing && songPosition == old(songPosition) && positionPointer == old(positionPointer)
      ensures old(status) !in {Playing, StartingToPlay, Recording} ==>
        r && songPosition == time && positionPointer == time &&
        status == (if old(status) == StartingToRecord then StartingToRecord else StartingToPlay)
    {
      if status == Playing || status == StartingToPlay {
        return true;
      }
      if status == Recording {
        status := Playing;
        r := PunchOut();
        return;
      }
      songPosition := time;
      positionPointer := songPosition;
      if status != Recording && status != StartingToRecord {
        status := StartingToPlay;
      }
      return true;
    }

    /** `jumpTo(pos)`: a negative position is ignored; otherwise both the
        song and the fetch positions move to `pos` and the token advances. */
    method JumpTo(pos: RealTime)
      modifies this`songPosition, this`lastFetchSongPosition, this`positionPointer, this`transportToken
      ensures pos < 0 ==>
        songPosition == old(songPosition) && lastFetchSongPosition == old(lastFetchSongPosition) &&
        positionPointer == old(positionPointer) && transportToken == old(transportToken)
      ensures pos >= 0 ==>
        songPosition == pos && lastFetchSongPosition == pos && positionPointer == pos &&
        transportToken == old(transportToken) + 1
    {
      if pos < 0 {
        return;
      }
      songPosition, lastFetchSongPosition := pos, pos;
      positionPointer := songPosition;
      IncrementTransportToken();
    }

    method SetLoop(start: RealTime, end: RealTime)
      modifies this`loopStart, this`loopEnd
      ensures loopStart == start && loopEnd == end
    {
      loopStart := start;
      loopEnd := end;
    }

    /** `processMappedEvent`: queues a copy of the event for asynchronous output. */
    method ProcessMappedEvent(e: MappedEvent)
      modifies this`asyncOutQueue
      ensures asyncOutQueue == old(asyncOutQueue) + [CopyFields(e)]
      ensures asyncOutQueue[|asyncOutQueue| - 1] == e
    {
      asyncOutQueue := asyncOutQueue + [CopyFields(e)];
    }

    /** `pullAsynchronousMidiQueue`: hands over the input queue and empties it. */
    method PullAsynchronousMidiQueue() returns (mq: seq<MappedEvent>)
      modifies this`asyncInQueue
      ensures mq == old(asyncInQueue) && asyncInQueue == []
    {
      mq := asyncInQueue;
      asyncInQueue := [];
    }

    /** `setMappedProperties`: for each index below the shortest list, sets
        the property on the object with that id when the studio has one;
        the object lookup is cached while the id repeats. */
    method SetMappedProperties(ids: seq<int>, properties: seq<string>, values: seq<real>)
      modifies this`propertyLog
      ensures propertyLog == old(propertyLog) +
        PropertyWrites(studioObjects, ids, properties, values, Min3(|ids|, |properties|, |values|))
    {
      var found := false;
      var prevId := 0;
      var i := 0;
      var n := Min3(|ids|, |properties|, |values|);
      while i < |ids| && i < |properties| && i < |values|
        invariant 0 <= i <= n
        invariant i > 0 ==> prevId == ids[i - 1] && (found <==> prevId in studioObjects)
        invariant propertyLog == old(propertyLog) + PropertyWrites(studioObjects, ids, properties, values, i)
      {
        if i == 0 || ids[i] != prevId {
          found := ids[i] in studioObjects;
          prevId := ids[i];
        }
        if found {
          propertyLog := propertyLog + [PropertySet(ids[i], properties[i], values[i])];
        }
        i := i + 1;
      }
    }

    /** `segmentModified`: a null mapper is ignored; otherwise the iterator is
        reset for it, immediately only while playing. */
    method SegmentModified(mapper: Option<int>)
      modifies this`metaCalls
      ensures mapper.None? ==> metaCalls == old(metaCalls)
      ensures mapper.Some? ==>
        metaCalls == old(metaCalls) + [ResetIteratorForSegment(mapper.value, status == Playing)]
    {
      if mapper.None? {
        return;
      }
      var immediate := status == Playing;
      metaCalls := metaCalls + [ResetIteratorForSegment(mapper.value, immediate)];
    }

    method SegmentAdded(mapper: Option<int>)
      modifies this`metaCalls
      ensures metaCalls == old(metaCalls) + (if mapper.Some? then [AddSegment(mapper.value)] else [])
    {
      if mapper.None? {
        return;
      }
      metaCalls := metaCalls + [AddSegment(mapper.value)];
    }

    method SegmentAboutToBeDeleted(mapper: Option<int>)
      modifies this`metaCalls
      ensures metaCalls == old(metaCalls) + (if mapper.Some? then [RemoveSegment(mapper.value)] else [])
    {
      if mapper.None? {
        return;
      }
      metaCalls := metaCalls + [RemoveSegment(mapper.value)];
    }

    method CompositionAboutToBeDeleted()
      modifies this`metaCalls
      ensures metaCalls == old(metaCalls) + [ClearSegments]
    {
      metaCalls := metaCalls + [ClearSegments];
    }

    /** `getNextTransportRequest`: false on an empty queue, otherwise the
        oldest request, removed from the queue. */
    method GetNextTransportRequest() returns (r: Option<(TransportRequest, RealTime)>)
      modifies this`transportRequests
      ensures old(transportRequests) == [] ==> r.None? && transportRequests == []
      ensures old(transportRequests) != [] ==>
        r == Some(old(transportRequests)[0]) && transportRequests == old(transportRequests)[1..]
    {
      if transportRequests == [] {
        return None;
      }
      var pair := transportRequests[0];
      transportRequests := transportRequests[1..];
      return Some(pair);
    }

    /** `getSlice`: the iterator seeks only on the first fetch or when the
        slice starts before the previous one; the events it yields for
        `[start, end)` (`produced`) are appended to the list. */
    method GetSlice(list: seq<MappedEvent>, start: RealTime, end: RealTime, firstFetch: bool,
                    produced: seq<MappedEvent>) returns (list': seq<MappedEvent>)
      modifies this`metaCalls, this`lastStartTime
      ensures list' == list + produced
      ensures metaCalls == old(metaCalls) +
        (if firstFetch || start < old(lastStartTime) then [JumpToTime(start)] else []) +
        [FetchSlice(start, end)]
      ensures lastStartTime == start
    {
      if firstFetch || start < lastStartTime {
        metaCalls := metaCalls + [JumpToTime(start)];
      }
      metaCalls := metaCalls + [FetchSlice(start, end)];
      list' := list + produced;
      lastStartTime := start;
    }

    /** `fetchEvents`: nothing while stopped or stopping; otherwise a slice
        (latency compensation is empty). */
    method FetchEvents(list: seq<MappedEvent>, start: RealTime, end: RealTime, firstFetch: bool,
                       produced: seq<MappedEvent>) returns (list': seq<MappedEvent>)
      modifies this`metaCalls, this`lastStartTime
      ensures status in {Stopped, Stopping} ==>
        list' == list && metaCalls == old(metaCalls) && lastStartTime == old(lastStartTime)
      ensures status !in {Stopped, Stopping} ==>
        list' == list + produced && lastStartTime == start &&
        metaCalls == old(metaCalls) +
          (if firstFetch || start < old(lastStartTime) then [JumpToTime(start)] else []) +
          [FetchSlice(start, end)]
    {
      if status == Stopped || status == Stopping {
        return list;
      }
      list' := GetSlice(list, start, end, firstFetch, produced);
    }

    /** `startPlaying`: the fetch position jumps one read-ahead window past
        the song position, that window is fetched with a seek, the audio
        events are collected and the token advances. */
    method StartPlaying(produced: seq<MappedEvent>) returns (r: bool)
      modifies this`lastFetchSongPosition, this`metaCalls, this`lastStartTime, this`transportToken
      ensures r
      ensures lastFetchSongPosition == songPosition + ReadAhead
      ensures transportToken == old(transportToken) + 1
      ensures status in {Stopped, Stopping} ==> metaCalls == old(metaCalls) + [GetAudioEvents]
      ensures status !in {Stopped, Stopping} ==>
        lastStartTime == songPosition &&
        metaCalls == old(metaCalls) + [JumpToTime(songPosition), FetchSlice(songPosition, songPosition + ReadAhead), GetAudioEvents]
    {
      lastFetchSongPosition := songPosition + ReadAhead;
      var c := FetchEvents([], songPosition, songPosition + ReadAhead, true, produced);
      metaCalls := metaCalls + [GetAudioEvents];
      IncrementTransportToken();
      return true;
    }

    /** `keepPlaying`: fetches from the last fetch position up to the
        clamped read-ahead end when that lies beyond it, and advances the
        fetch position there; the fetch position never moves back. */
    method KeepPlaying(produced: seq<MappedEvent>) returns (r: bool)
      modifies this`lastFetchSongPosition, this`metaCalls, this`lastStartTime
      ensures r
      ensures var fetchEnd := FetchEnd(songPosition, IsLooping(), loopEnd);
        lastFetchSongPosition == (if fetchEnd > old(lastFetchSongPosition) then fetchEnd else old(lastFetchSongPosition)) &&
        (fetchEnd <= old(lastFetchSongPosition) || status in {Stopped, Stopping} ==>
          metaCalls == old(metaCalls) && lastStartTime == old(lastStartTime)) &&
        (fetchEnd > old(lastFetchSongPosition) && status !in {Stopped, Stopping} ==>
          lastStartTime == old(lastFetchSongPosition) &&
          metaCalls == old(metaCalls) +
            (if old(lastFetchSongPosition) < old(lastStartTime) then [JumpToTime(old(lastFetchSongPosition))] else []) +
            [FetchSlice(old(lastFetchSongPosition), fetchEnd)])
      ensures lastFetchSongPosition >= old(lastFetchSongPosition)
    {
      var fetchEnd := songPosition + ReadAhead;
      if IsLooping() && fetchEnd >= loopEnd {
        fetchEnd := loopEnd - 1;
      }
      if fetchEnd > lastFetchSongPosition {
        var c := FetchEvents([], lastFetchSongPosition, fetchEnd, false, produced);
      }
      if fetchEnd > lastFetchSongPosition {
        lastFetchSongPosition := fetchEnd;
      }
      return true;
    }

    /** `transportChange`: queues the request at time zero and returns the
        token that marks its completion. */
    method TransportChange(request: TransportRequest) returns (token: int)
      modifies this`transportRequests
      ensures transportRequests == old(transportRequests) + [(request, 0)]
      ensures token == transportToken + (if request == TransportNoChange then 0 else 1)
      ensures request == TransportNoChange <==> IsTransportSyncComplete(token)
    {
      transportRequests := transportRequests + [(request, 0)];
      if request == TransportNoChange {
        return transportToken;
      }
      return transportToken + 1;
    }

    /** `transportJump`: queues the request with its time; a jump takes one
        token step more than a plain change. */
    method TransportJump(request: TransportRequest, rt: RealTime) returns (token: int)
      modifies this`transportRequests
      ensures transportRequests == old(transportRequests) + [(request, rt)]
      ensures token == transportToken + (if request == TransportNoChange then 1 else 2)
      ensures !IsTransportSyncComplete(token)
    {
      transportRequests := transportRequests + [(request, rt)];
      if request == TransportNoChange {
        return transportToken + 1;
      }
      return transportToken + 2;
    }

    function IsTransportSyncComplete(token: int): bool
      reads this
    {
      transportToken >= token
    }

    /** Advancing the token completes exactly one more pending token and
        keeps every completed one complete. */
    method IncrementTransportToken()
      modifies this`transportToken
      ensures transportToken == old(transportToken) + 1
      ensures forall t :: old(IsTransportSyncComplete(t)) ==> IsTransportSyncComplete(t)
      ensures forall t :: IsTransportSyncComplete(t) && !old(IsTransportSyncComplete(t)) ==> t == transportToken
    {
      transportToken := transportToken + 1;
    }
  }
}
