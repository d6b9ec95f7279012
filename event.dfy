// The musical event as the recording and XML-loading code sees it: a type
// name, an absolute time, a duration, a sub-ordering and a map of typed,
// optionally persistent properties. The event class itself is not part of
// this model; only the parts these operations read and write are kept.
module Events {
  import opened Base

  datatype PropertyValue = BoolValue(b: bool) | IntValue(i: int) | StringValue(s: string)

  datatype Property = Property(value: PropertyValue, persistent: bool)

  datatype Event = Event(
    eventType: string,
    absoluteTime: TimeT,
    duration: TimeT,
    subOrdering: int,
    properties: map<string, Property>)

  /** A default-constructed event: no type, at time zero, with no duration,
      sub-ordering or properties. */
  const EmptyEvent: Event := Event("", 0, 0, 0, map[])

  /** `PITCH`, the property a note's pitch is stored under. */
  const PitchProperty: string := "pitch"

  /** `get<Int>(name)`: the integer property, or `None` where the event
      class would throw (missing, or of another type). */
  function GetInt(e: Event, name: string): (r: Option<int>)
    ensures r.Some? <==> name in e.properties && e.properties[name].value.IntValue?
    ensures r.Some? ==> e.properties[name].value == IntValue(r.value)
  {
    if name in e.properties && e.properties[name].value.IntValue? then
      Some(e.properties[name].value.i)
    else None
  }

  /** `set<T>(name, value, persistent)`: the property is (re)placed, every
      other one is kept. */
  function SetProperty(e: Event, name: string, v: PropertyValue, persistent: bool): (r: Event)
    ensures r.properties == e.properties[name := Property(v, persistent)]
    ensures r.eventType == e.eventType && r.absoluteTime == e.absoluteTime
    ensures r.duration == e.duration && r.subOrdering == e.subOrdering
  {
    e.(properties := e.properties[name := Property(v, persistent)])
  }
}
