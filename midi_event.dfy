// A MIDI file event: time, duration, status code, two data bytes, and for
// meta and system-exclusive events a meta code and a message. The five
// constructors only initialise these fields.
module MidiEvents {
  import opened Base
  import opened MappedEvents

  datatype MidiEvent = MidiEvent(
    time: TimeT,
    duration: TimeT,
    eventCode: MidiByte,
    data1: MidiByte,
    data2: MidiByte,
    metaEventCode: MidiByte,
    metaMessage: string)

  /** The default constructor: every number zero, no message. */
  function DefaultMidiEvent(): (e: MidiEvent)
    ensures e.time == 0 && e.duration == 0 && e.eventCode == 0
    ensures e.data1 == 0 && e.data2 == 0 && e.metaEventCode == 0 && e.metaMessage == ""
  {
    MidiEvent(0, 0, 0, 0, 0, 0, "")
  }

  /** `MidiEvent(time, eventCode, data1)`: a one-data-byte message. */
  function OneByteEvent(time: TimeT, eventCode: MidiByte, data1: MidiByte): (e: MidiEvent)
    ensures e.time == time && e.eventCode == eventCode && e.data1 == data1
    ensures e.duration == 0 && e.data2 == 0 && e.metaEventCode == 0 && e.metaMessage == ""
  {
    MidiEvent(time, 0, eventCode, data1, 0, 0, "")
  }

  /** `MidiEvent(time, eventCode, data1, data2)`: a two-data-byte message. */
  function TwoByteEvent(time: TimeT, eventCode: MidiByte, data1: MidiByte, data2: MidiByte): (e: MidiEvent)
    ensures e.time == time && e.eventCode == eventCode && e.data1 == data1 && e.data2 == data2
    ensures e.duration == 0 && e.metaEventCode == 0 && e.metaMessage == ""
  {
    MidiEvent(time, 0, eventCode, data1, data2, 0, "")
  }

  /** `MidiEvent(time, eventCode, metaEventCode, metaMessage)`: a meta event,
      no data bytes. */
  function MetaEvent(time: TimeT, eventCode: MidiByte, metaEventCode: MidiByte, metaMessage: string): (e: MidiEvent)
    ensures e.time == time && e.eventCode == eventCode
    ensures e.metaEventCode == metaEventCode && e.metaMessage == metaMessage
    ensures e.duration == 0 && e.data1 == 0 && e.data2 == 0
  {
    MidiEvent(time, 0, eventCode, 0, 0, metaEventCode, metaMessage)
  }

  /** `MidiEvent(time, eventCode, sysEx)`: the system-exclusive bytes are kept
      in the message field, with no meta code and no data bytes. */
  function SysExEvent(time: TimeT, eventCode: MidiByte, sysEx: string): (e: MidiEvent)
    ensures e.time == time && e.eventCode == eventCode && e.metaMessage == sysEx
    ensures e.duration == 0 && e.data1 == 0 && e.data2 == 0 && e.metaEventCode == 0
  {
    MidiEvent(time, 0, eventCode, 0, 0, 0, sysEx)
  }

  /** The constructors agree with each other: a one-byte event is the
      two-byte event with a zero second byte, a system-exclusive event is the
      meta event with meta code 0, and the default event is the one-byte
      event of all zeros. */
  lemma ConstructorsAgree(time: TimeT, eventCode: MidiByte, data1: MidiByte, sysEx: string)
    ensures OneByteEvent(time, eventCode, data1) == TwoByteEvent(time, eventCode, data1, 0)
    ensures SysExEvent(time, eventCode, sysEx) == MetaEvent(time, eventCode, 0, sysEx)
    ensures DefaultMidiEvent() == OneByteEvent(0, 0, 0)
    ensures SysExEvent(time, eventCode, "") == TwoByteEvent(time, eventCode, 0, 0)
  {
  }
}
