// The composition as the document and the sequence manager use it: the
// playback pointer and markers, bar arithmetic, the segment and trigger
// segment lists, the tracks, each segment's refresh-status array and each
// segment's events. The composition and segment classes themselves are not
// part of this model; segments are identified by their address.
module Compositions {
  import opened Base
  import opened Events

  /** A segment, identified by its address. */
  type SegmentId = int

  /** A trigger segment record: the segment, and the runtime ids of the
      segments whose events refer to it. */
  datatype TriggerSegmentRec = TriggerSegmentRec(segment: SegmentId, references: set<int>)

  /** The recording filters of a track. */
  datatype Track = Track(midiInputChannel: int, midiInputDevice: int)

  /** The refresh flags of segment `s`; a segment nobody observes has none. */
  function FlagsOf(m: map<SegmentId, seq<bool>>, s: SegmentId): seq<bool>
  {
    if s in m then m[s] else []
  }

  /** The events of segment `s`; a segment never written to has none. */
  function EventsOf(m: map<SegmentId, multiset<Event>>, s: SegmentId): multiset<Event>
  {
    if s in m then m[s] else multiset{}
  }

  class Composition {
    var position: TimeT
    var startMarker: TimeT
    var endMarker: TimeT
    /** `getBarRangeForTime` and `getBarEndForTime`, left abstract. */
    const barRange: TimeT -> (TimeT, TimeT)
    const barEnd: TimeT -> TimeT
    /** `Segment::getRuntimeId` and `Segment::getTrack`, left abstract. */
    const runtimeId: SegmentId -> int
    const segmentTrack: SegmentId -> int
    var segments: seq<SegmentId>
    var triggerSegments: seq<TriggerSegmentRec>
    var tracks: map<int, Track>
    /** Each segment's refresh-status array: the "needs refresh" flag of every
        observer id handed out so far. */
    var refreshStatus: map<SegmentId, seq<bool>>
    /** Each segment's events; an iterator into a segment is the event it
        points at. */
    var segmentEvents: map<SegmentId, multiset<Event>>

    constructor (barRange: TimeT -> (TimeT, TimeT), barEnd: TimeT -> TimeT,
                 runtimeId: SegmentId -> int, segmentTrack: SegmentId -> int)
      ensures this.barRange == barRange && this.barEnd == barEnd
      ensures this.runtimeId == runtimeId && this.segmentTrack == segmentTrack
      ensures position == 0 && segments == [] && triggerSegments == [] && tracks == map[]
      ensures refreshStatus == map[] && segmentEvents == map[]
    {
      this.barRange := barRange;
      this.barEnd := barEnd;
      this.runtimeId := runtimeId;
      this.segmentTrack := segmentTrack;
      position, startMarker, endMarker := 0, 0, 0;
      segments, triggerSegments, tracks := [], [], map[];
      refreshStatus, segmentEvents := map[], map[];
    }

    method SetPosition(t: TimeT)
      modifies this`position
      ensures position == t
    {
      position := t;
    }

    /** `Segment::getNewRefreshStatusId`: a new observer of the segment, whose
        flag starts out set; the id is the next free index. */
    method NewRefreshStatusId(s: SegmentId) returns (id: int)
      modifies this`refreshStatus
      ensures id == |FlagsOf(old(refreshStatus), s)|
      ensures refreshStatus == old(refreshStatus)[s := FlagsOf(old(refreshStatus), s) + [true]]
    {
      id := |FlagsOf(refreshStatus, s)|;
      refreshStatus := refreshStatus[s := FlagsOf(refreshStatus, s) + [true]];
    }

    /** `getRefreshStatus(id).setNeedsRefresh(false)`. */
    method ClearRefresh(s: SegmentId, id: int)
      requires 0 <= id < |FlagsOf(refreshStatus, s)|
      modifies this`refreshStatus
      ensures refreshStatus == old(refreshStatus)[s := FlagsOf(old(refreshStatus), s)[id := false]]
    {
      refreshStatus := refreshStatus[s := FlagsOf(refreshStatus, s)[id := false]];
    }

    /** `Segment::insert` and `Segment::erase(iterator)`. */
    method InsertEvent(s: SegmentId, e: Event)
      modifies this`segmentEvents
      ensures segmentEvents == old(segmentEvents)[s := EventsOf(old(segmentEvents), s) + multiset{e}]
    {
      segmentEvents := segmentEvents[s := EventsOf(segmentEvents, s) + multiset{e}];
    }

    method EraseEvent(s: SegmentId, e: Event)
      modifies this`segmentEvents
      ensures segmentEvents == old(segmentEvents)[s := EventsOf(old(segmentEvents), s) - multiset{e}]
    {
      segmentEvents := segmentEvents[s := EventsOf(segmentEvents, s) - multiset{e}];
    }
  }
}
