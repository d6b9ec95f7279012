// MappedEvent, the flat event record the sequencer exports, built from a
// musical event by tag dispatch, and the DataBlockRepository that keeps the
// variable-length payloads (SysEx bytes, text) of such events under a block id.
module MappedEvents {
  import opened Base

  /** `MidiByte` is an `unsigned char`. */
  type MidiByte = x: int | 0 <= x < 256

  /** Storing a `long` into a `MidiByte` keeps its low eight bits. Dafny's
      `%` is Euclidean, which is exactly the unsigned wrap-around. */
  function ToMidiByte(x: int): (b: MidiByte)
    ensures 0 <= x < 256 ==> b == x
    ensures (x - b) % 256 == 0
  {
    x % 256
  }

  const MidiMaxValue: int := 127
  const MidiSystemExclusive: MidiByte := 0xF0
  const MidiSystemReset: MidiByte := 0xFF
  const MidiTextEvent: MidiByte := 0x01
  const MidiLyric: MidiByte := 0x05

  /** `(int)NO_TRACK`, the 32-bit pattern 0xDEADBEEF read as a signed int. */
  const NoTrack: int := 0xDEADBEEF - 0x1_0000_0000

  /** The `MappedEventType` tags this model produces or filters on. */
  datatype EventType =
    | InvalidMappedEvent
    | MidiNote
    | MidiNoteOneShot
    | MidiProgramChange
    | MidiKeyPressure
    | MidiChannelPressure
    | MidiPitchBend
    | MidiController
    | MidiSystemMessage
    | Audio
    | Text

  /** The bit each tag occupies in a filter mask. */
  function TypeBit(t: EventType): (b: bv32)
    ensures t == InvalidMappedEvent <==> b == 0
  {
    match t
    case InvalidMappedEvent => 0
    case MidiNote => 1 << 0
    case MidiNoteOneShot => 1 << 1
    case MidiProgramChange => 1 << 2
    case MidiKeyPressure => 1 << 3
    case MidiChannelPressure => 1 << 4
    case MidiPitchBend => 1 << 5
    case MidiController => 1 << 6
    case MidiSystemMessage => 1 << 7
    case Audio => 1 << 8
    case Text => 1 << 29
  }

  /** Distinct tags occupy distinct bits, so a mask selects tags exactly. */
  lemma TypeBitsDisjoint(s: EventType, t: EventType)
    requires s != t
    ensures TypeBit(s) & TypeBit(t) == 0
  {
  }

  datatype MappedEvent = MappedEvent(
    trackId: int,
    instrument: int,
    eventType: EventType,
    data1: MidiByte,
    data2: MidiByte,
    eventTime: RealTime,
    duration: RealTime,
    audioStartMarker: RealTime,
    dataBlockId: int,
    runtimeSegmentId: int,
    autoFade: bool,
    fadeInTime: RealTime,
    fadeOutTime: RealTime,
    recordedChannel: int,
    recordedDevice: int)

  /** The member initialisers of the converting constructor: a MIDI note on
      no track with zero data and no data block. */
  function Defaults(instrument: int, eventTime: RealTime, duration: RealTime): (m: MappedEvent)
    ensures m.eventType == MidiNote && m.data1 == 0 && m.data2 == 0 && m.dataBlockId == 0
    ensures m.trackId == NoTrack && m.runtimeSegmentId == -1 && !m.autoFade
  {
    MappedEvent(NoTrack, instrument, MidiNote, 0, 0, eventTime, duration,
                0, 0, -1, false, 0, 0, 0, 0)
  }

  /** The audio-event constructor `MappedEvent(instrument, audioId, eventTime,
      duration, audioStartMarker)` of the class header, which is not part of
      this model: the 16-bit audio file id is split into its low byte
      (`data1`) and high byte (`data2`). */
  function AudioMappedEvent(instrument: int, audioId: int, eventTime: RealTime,
                            duration: RealTime, startMarker: RealTime): (m: MappedEvent)
    ensures m.eventType == Audio && m.instrument == instrument
    ensures m.data1 + 256 * m.data2 == audioId % 0x1_0000
    ensures m.eventTime == eventTime && m.duration == duration && m.audioStartMarker == startMarker
    ensures m.trackId == NoTrack && m.runtimeSegmentId == -1 && m.dataBlockId == 0
    ensures !m.autoFade && m.fadeInTime == 0 && m.fadeOutTime == 0
  {
    var id := audioId % 0x1_0000;
    MappedEvent(NoTrack, instrument, Audio, id % 256, id / 256, eventTime, duration,
                startMarker, 0, -1, false, 0, 0, 0, 0)
  }

  /** `MidiInstrumentBase`, the first MIDI instrument id, from the instrument
      header, which is not part of this model. */
  const MidiInstrumentBase: int := 2000

  /** The constructor `MappedEvent(instrument, type, pitch, velocity)` of the
      class header, which is not part of this model: the two data bytes set,
      everything else at its default, at time zero. */
  function SimpleMappedEvent(instrument: int, t: EventType, data1: MidiByte, data2: MidiByte): (m: MappedEvent)
    ensures m.instrument == instrument && m.eventType == t && m.data1 == data1 && m.data2 == data2
    ensures m.eventTime == 0 && m.duration == 0 && m.dataBlockId == 0
    ensures m.trackId == NoTrack && m.runtimeSegmentId == -1 && !m.autoFade
  {
    MappedEvent(NoTrack, instrument, t, data1, data2, 0, 0, 0, 0, -1, false, 0, 0, 0, 0)
  }

  /** `EndedBefore(t)` of the class header, which is not part of this
      model: the event's end (time plus duration) lies strictly before `t`. */
  function EndedBefore(e: MappedEvent, t: RealTime): bool
  {
    e.eventTime + e.duration < t
  }

  /** The musical event kinds the converting constructor tells apart. */
  datatype EventKind =
    | NoteKind
    | PitchBendKind
    | ControllerKind
    | ProgramChangeKind
    | KeyPressureKind
    | ChannelPressureKind
    | SystemExclusiveKind
    | TextKind
    | OtherKind

  datatype TextType = Annotation | LilyPondDirective | Lyric | OtherText

  /** What the constructor can read from a musical event. A `None` marks a
      read that throws: a missing property, or a typed view (`PitchBend(e)`,
      `Controller(e)`, ...) whose construction fails. `values` holds the two
      numbers the typed view yields, in the order the constructor reads them
      (MSB and LSB, number and value, program, pitch and pressure, pressure). */
  datatype SourceEvent = SourceEvent(
    kind: EventKind,
    velocity: Option<int>,
    pitch: Option<int>,
    values: Option<(int, int)>,
    rawData: Option<string>,
    textType: Option<TextType>,
    text: string)

  /** A typed view that yields two data bytes, after the tag is set. */
  function WithValues(m: MappedEvent, t: EventType, values: Option<(int, int)>, both: bool): MappedEvent
  {
    var tagged := m.(eventType := t);
    match values
    case None => tagged
    case Some(v) =>
      if both then tagged.(data1 := ToMidiByte(v.0), data2 := ToMidiByte(v.1))
      else tagged.(data1 := ToMidiByte(v.0))
  }

  /** The converting constructor's dispatch, without its data-block side
      effect (see `DataPayload` and `MakeMappedEvent`). Each branch sets its
      fields in the source's order, so a throw leaves the fields assigned so
      far and the defaults for the rest. */
  function Dispatch(instrument: int, e: SourceEvent, eventTime: RealTime, duration: RealTime): MappedEvent
  {
    var d := Defaults(instrument, eventTime, duration);
    match e.kind
    case NoteKind =>
      var v := if e.velocity.Some? then e.velocity.value else MidiMaxValue;
      var withVelocity := d.(data2 := ToMidiByte(v));
      if e.pitch.Some? then withVelocity.(data1 := ToMidiByte(e.pitch.value)) else withVelocity
    case PitchBendKind => WithValues(d, MidiPitchBend, e.values, true)
    case ControllerKind => WithValues(d, MidiController, e.values, true)
    case ProgramChangeKind => WithValues(d, MidiProgramChange, e.values, false)
    case KeyPressureKind => WithValues(d, MidiKeyPressure, e.values, true)
    case ChannelPressureKind => WithValues(d, MidiChannelPressure, e.values, false)
    case SystemExclusiveKind => d.(eventType := MidiSystemMessage, data1 := MidiSystemExclusive)
    case TextKind =>
      (match e.textType
       case None => d
       case Some(tt) =>
         if tt == Annotation || tt == LilyPondDirective then d.(eventType := InvalidMappedEvent)
         else d.(eventType := Text, data1 := if tt == Lyric then MidiLyric else MidiTextEvent))
    case OtherKind => d.(eventType := InvalidMappedEvent)
  }

  /** The payload the constructor hands to the repository: the raw SysEx
      bytes, or the text of a text event that is exported. */
  function DataPayload(e: SourceEvent): Option<string>
  {
    match e.kind
    case SystemExclusiveKind => e.rawData
    case TextKind =>
      if e.textType.Some? && e.textType.value != Annotation && e.textType.value != LilyPondDirective
      then Some(e.text) else None
    case _ => None
  }

  /** A note takes its pitch and velocity, the velocity defaulting to the
      MIDI maximum; a missing pitch leaves data1 at 0 but keeps the velocity. */
  lemma NoteMapping(instrument: int, e: SourceEvent, t: RealTime, dur: RealTime)
    requires e.kind == NoteKind
    ensures var m := Dispatch(instrument, e, t, dur);
      m.eventType == MidiNote &&
      m.data2 == (if e.velocity.Some? then ToMidiByte(e.velocity.value) else MidiMaxValue) &&
      m.data1 == (if e.pitch.Some? then ToMidiByte(e.pitch.value) else 0) &&
      DataPayload(e) == None
  {
  }

  /** The two-byte MIDI kinds map to their own tag and carry the two values
      of their typed view; when that view throws, the tag is still set and
      both data bytes stay 0. */
  lemma TwoByteMapping(instrument: int, e: SourceEvent, t: RealTime, dur: RealTime)
    requires e.kind in {PitchBendKind, ControllerKind, KeyPressureKind}
    ensures var m := Dispatch(instrument, e, t, dur);
      m.eventType == (match e.kind
                      case PitchBendKind => MidiPitchBend
                      case ControllerKind => MidiController
                      case _ => MidiKeyPressure) &&
      (e.values.Some? ==> m.data1 == ToMidiByte(e.values.value.0) && m.data2 == ToMidiByte(e.values.value.1)) &&
      (e.values.None? ==> m.data1 == 0 && m.data2 == 0)
  {
  }

  /** Program change and channel pressure carry one byte; data2 stays 0. */
  lemma OneByteMapping(instrument: int, e: SourceEvent, t: RealTime, dur: RealTime)
    requires e.kind == ProgramChangeKind || e.kind == ChannelPressureKind
    ensures var m := Dispatch(instrument, e, t, dur);
      m.eventType == (if e.kind == ProgramChangeKind then MidiProgramChange else MidiChannelPressure) &&
      m.data1 == (if e.values.Some? then ToMidiByte(e.values.value.0) else 0) &&
      m.data2 == 0
  {
  }

  /** Text is exported as a text meta event (lyric or generic) with its text
      as payload, except annotations and LilyPond directives, which become
      invalid; a text event whose view throws stays the default note. */
  lemma TextMapping(instrument: int, e: SourceEvent, t: RealTime, dur: RealTime)
    requires e.kind == TextKind
    ensures var m := Dispatch(instrument, e, t, dur);
      (m.eventType == InvalidMappedEvent <==>
         e.textType == Some(Annotation) || e.textType == Some(LilyPondDirective)) &&
      (m.eventType == Text <==> DataPayload(e).Some?) &&
      (m.eventType == Text ==>
         DataPayload(e) == Some(e.text) &&
         m.data1 == (if e.textType == Some(Lyric) then MidiLyric else MidiTextEvent)) &&
      (e.textType.None? ==> m == Defaults(instrument, t, dur))
  {
  }

  /** The dispatch only ever writes the tag and the two data bytes: every
      other field keeps its initialiser. */
  lemma DispatchFrame(instrument: int, e: SourceEvent, t: RealTime, dur: RealTime)
    ensures var m := Dispatch(instrument, e, t, dur);
      m == Defaults(instrument, t, dur).(eventType := m.eventType, data1 := m.data1, data2 := m.data2)
  {
  }

  /** An event is invalid exactly when its kind is unrecognised or it is an
      annotation or LilyPond directive. */
  lemma InvalidExactly(instrument: int, e: SourceEvent, t: RealTime, dur: RealTime)
    ensures Dispatch(instrument, e, t, dur).eventType == InvalidMappedEvent <==>
      e.kind == OtherKind ||
      (e.kind == TextKind && (e.textType == Some(Annotation) || e.textType == Some(LilyPondDirective)))
  {
  }

  /** `operator<`: events are ordered by time alone. */
  function Less(a: MappedEvent, b: MappedEvent): (r: bool)
  {
    a.eventTime < b.eventTime
  }

  /** The order is a strict weak order: irreflexive, transitive, and two
      events are incomparable exactly when their times are equal, whatever
      their other fields. */
  lemma LessIsStrictWeakOrder(a: MappedEvent, b: MappedEvent, c: MappedEvent)
    ensures !Less(a, a)
    ensures Less(a, b) && Less(b, c) ==> Less(a, c)
    ensures !Less(a, b) && !Less(b, a) <==> a.eventTime == b.eventTime
    ensures Less(a, b) ==> !Less(b, a)
  {
  }

  /** `operator=`: field-by-field copy of all fifteen fields. */
  function CopyFields(from: MappedEvent): (r: MappedEvent)
    ensures r == from
  {
    MappedEvent(from.trackId, from.instrument, from.eventType, from.data1, from.data2,
                from.eventTime, from.duration, from.audioStartMarker, from.dataBlockId,
                from.runtimeSegmentId, from.autoFade, from.fadeInTime, from.fadeOutTime,
                from.recordedChannel, from.recordedDevice)
  }

  /** An upper bound on a finite set of ids, so that some positive id is
      always unused. */
  ghost function IdBound(ids: set<int>): (b: int)
    ensures b > 0
    ensures forall x :: x in ids ==> x < b
    decreases |ids|
  {
    if ids == {} then 1
    else
      HasElement(ids);
      var x :| x in ids;
      var rest := IdBound(ids - {x});
      assert forall y :: y in ids ==> y == x || y in ids - {x};
      if x + 1 > rest then x + 1 else rest
  }

  lemma HasElement(ids: set<int>)
    requires ids != {}
    ensures exists x :: x in ids
  {
    if forall x :: x !in ids {
      assert false;
    }
  }

  /** The block store: block id to payload bytes. The temporary files that
      back it in the source are a map here. */
  class DataBlockRepository {
    var store: map<int, string>

    constructor ()
      ensures store == map[]
    {
      store := map[];
    }

    /** `getDataBlock(id)`: the stored payload, or the empty string for an
        id with no block. */
    function GetDataBlock(id: int): (s: string)
      reads this
      ensures id in store ==> s == store[id]
      ensures id !in store ==> s == ""
    {
      if id in store then store[id] else ""
    }

    /** `getDataBlockForEvent(e)`: id 0 means "no block" and yields the empty
        string without consulting the store. */
    function GetDataBlockForEvent(e: MappedEvent): (s: string)
      reads this
      ensures e.dataBlockId == 0 ==> s == ""
      ensures e.dataBlockId != 0 && e.dataBlockId in store ==> s == store[e.dataBlockId]
      ensures e.dataBlockId !in store ==> s == ""
    {
      if e.dataBlockId == 0 then "" else GetDataBlock(e.dataBlockId)
    }

    /** `registerDataBlock(s)`: draws ids until one is nonzero and unused,
        and stores `s` under it. `random()` draws from 0 to 2^31 - 1, so the
        id is positive; the draw is a free choice here. */
    method RegisterDataBlock(s: string) returns (id: int)
      modifies this
      ensures id > 0 && id !in old(store)
      ensures store == old(store)[id := s]
    {
      ghost var bound := IdBound(store.Keys);
      assert bound > 0 && bound !in store;
      id :| id > 0 && id !in store;
      store := store[id := s];
    }

    /** `unregisterDataBlock(id)`: the block is dropped. */
    method UnregisterDataBlock(id: int)
      modifies this
      ensures store == old(store) - {id}
    {
      store := store - {id};
    }

    /** `registerDataBlockForEvent(s, e)`: a new block for `s`, whose id the
        event now carries. */
    method RegisterDataBlockForEvent(s: string, e: MappedEvent) returns (e': MappedEvent)
      modifies this
      ensures e'.dataBlockId > 0 && e'.dataBlockId !in old(store)
      ensures e' == e.(dataBlockId := e'.dataBlockId)
      ensures store == old(store)[e'.dataBlockId := s]
    {
      var id := RegisterDataBlock(s);
      e' := e.(dataBlockId := id);
    }

    /** `unregisterDataBlockForEvent(e)`: drops the event's block. */
    method UnregisterDataBlockForEvent(e: MappedEvent)
      modifies this
      ensures store == old(store) - {e.dataBlockId}
    {
      UnregisterDataBlock(e.dataBlockId);
    }

    /** `setDataBlockForEvent(e, s, extend)`: an event without a block gets a
        new one holding `s`; otherwise its block is extended by `s` or
        replaced by it. */
    method SetDataBlockForEvent(e: MappedEvent, s: string, extend: bool) returns (e': MappedEvent)
      modifies this
      ensures e.dataBlockId == 0 ==>
        e'.dataBlockId > 0 && e'.dataBlockId !in old(store) &&
        e' == e.(dataBlockId := e'.dataBlockId) && store == old(store)[e'.dataBlockId := s]
      ensures e.dataBlockId != 0 ==>
        e' == e &&
        store == old(store)[e.dataBlockId := if extend then old(GetDataBlock(e.dataBlockId)) + s else s]
    {
      if e.dataBlockId == 0 {
        e' := RegisterDataBlockForEvent(s, e);
      } else {
        e' := e;
        var id := e.dataBlockId;
        if extend {
          store := store[id := GetDataBlock(id) + s];
        } else {
          store := store[id := s];
        }
      }
    }
  }

  /** The converting constructor `MappedEvent(instrument, e, time, duration)`
      with its side effect: SysEx bytes and exported text are registered as a
      new data block whose id the event carries. */
  method MakeMappedEvent(repo: DataBlockRepository, instrument: int, e: SourceEvent,
                         eventTime: RealTime, duration: RealTime) returns (m: MappedEvent)
    modifies repo
    ensures var d := Dispatch(instrument, e, eventTime, duration);
      match DataPayload(e)
      case None => m == d && repo.store == old(repo.store)
      case Some(s) =>
        m == d.(dataBlockId := m.dataBlockId) && m.dataBlockId > 0 &&
        m.dataBlockId !in old(repo.store) && repo.store == old(repo.store)[m.dataBlockId := s]
    ensures DataPayload(e).Some? ==> repo.GetDataBlockForEvent(m) == DataPayload(e).value
  {
    m := Dispatch(instrument, e, eventTime, duration);
    match DataPayload(e)
    case None =>
    case Some(s) =>
      m := repo.SetDataBlockForEvent(m, s, true);
  }
}
