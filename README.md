# rg-2-midi core, modelled in Dafny

This project models the sequential core of rg-2-midi, a Rosegarden-derived
exporter that loads a Rosegarden document and turns its segments into MIDI
events. It covers these parts:

- `FastVector<T>`, the gap buffer behind Rosegarden's event containers
  (`fast_vector.dfy`). It is a class over an `array` with a movable gap.
  `Contents()` maps the raw layout to the logical sequence. Every mutator
  is proved to perform the matching sequence operation and to keep the
  layout invariant.
- The segment mappers (`segment_mapper.dfy`): the repeat count with C++
  truncating division, the archived/solo/mute decision, mapper creation, and
  the loop that expands a repeating audio segment into audio-trigger events.
  That loop is proved against `PlayTimes`, a reference definition.
- The sequencer's transport state machine (`sequencer.dfy`): status, song
  position, read-ahead window, loop bounds, the transport token and its
  request FIFO, the asynchronous queues, filtering and property writes. The
  playback meta-iterator is kept abstract as a log of the calls made on it.
- The sequence manager's refresh bookkeeping (`sequence_manager.dfy`): the
  added and removed queues, the segment and trigger refresh-id maps, and the
  three passes of `refresh`. Each pass is proved against a pure pass
  function. Also here: the rewind/fast-forward clamps, the MIDI reset burst
  and the meta-iterator order.
- The document (`document.dfy`): the modified and auto-saved flags, the
  quick marker, the element-count scan before XML parsing, and the
  recording note tracker. The tracker covers the input filter, the note-on
  map and the duration correction of `adjustEndTimes`.
- Output events (`mapped_event.dfy`): the dispatch from a musical event to a
  flat `MappedEvent`, including the fallbacks when a lookup throws part-way,
  plus ordering, copy and the data-block repository.
- Event loading from XML attributes (`xml_storable_event.dfy`): attributes
  are interpreted in order, with Qt-style integer parsing and typed
  properties.
- The `MidiEvent` record constructors (`midi_event.dfy`).

`base.dfy` holds shared types: `Option`, and C++ truncating division
`CDiv`. `event.dfy` and `composition.dfy` give the vocabulary of the
classes the core calls into (`Event`, `Composition`, segments, tracks).
Those classes are not part of this model.

`RealTime` is modelled as an integer number of nanoseconds and `timeT` as an
integer. A segment is identified by its address, an integer.

## Model

| member | source | states |
|---|---|---|
| Base.CDivTruncates | src/SegmentMapper.cpp:83-84 | C++ division: the quotient times the divisor never passes the dividend, and the remainder is smaller than the divisor and has the dividend's sign |
| Base.CDivNonNegative | src/SegmentMapper.cpp:83-84 | For a non-negative dividend and a positive divisor, C++ division agrees with Euclidean division |
| FastVectors.BestNewCount | src/FastVector.h:329-340 | The new capacity is never below `n`. The first allocation is 8 or `n`. A capacity above `2n` is halved. Otherwise the capacity is doubled until it exceeds `n`, so the result's half is at most `n` |
| FastVectors.MoveBlock | src/FastVector.h:403-413 | The memmove of one block: the array afterwards is the snapshot with the block copied from `src` to `dst` |
| FastVectors.MoveGap | src/FastVector.h:395-416 | The memmoves of `moveGapTo` turn the array into the gap-moved snapshot |
| FastVectors.GapMovedView | src/FastVector.h:395-416 | Moving the gap to any index never changes the logical sequence |
| FastVectors.FastVector.ContentsAt | src/FastVector.h:342-345 | Logical element `i` is raw slot `i` when there is no gap or `i` is before the gap, else slot `i + gapLength`, and that slot is inside the array |
| FastVectors.FastVector.constructor | src/FastVector.h:232-234 | A new vector is empty, unallocated and valid |
| FastVectors.FastVector.At | src/FastVector.h:271-274 | `at(i)` is element `i` of the logical sequence |
| FastVectors.FastVector.Resize | src/FastVector.h:418-430 | Reallocation keeps the layout and the logical sequence, and gives room for at least `needed` slots (half the old size when that is over twice `needed`) |
| FastVectors.FastVector.MoveGapTo | src/FastVector.h:395-416 | The gap starts at `index` afterwards and the logical sequence is unchanged |
| FastVectors.FastVector.CloseGap | src/FastVector.h:324-327 | No gap is left afterwards and the logical sequence is unchanged |
| FastVectors.FastVector.Insert | src/FastVector.h:464-518 | The logical sequence becomes `old[..index] + [t] + old[index..]` and the layout invariant holds |
| FastVectors.FastVector.InsertAtEnd | src/FastVector.h:469-478 | Inserting at the end appends `t` |
| FastVectors.FastVector.InsertWithoutGap | src/FastVector.h:480-504 | Without a gap the tail is shifted, and a new gap is opened when there is room. The result is `t` inserted at `index` |
| FastVectors.FastVector.InsertAtGap | src/FastVector.h:506-515 | With a gap, the gap moves to `index` and its first slot takes `t`. The result is `t` inserted at `index` |
| FastVectors.FastVector.FillGap | src/FastVector.h:506-515 | Writing into the gap's first slot inserts `t` at the gap position |
| FastVectors.FastVector.Remove | src/FastVector.h:432-462 | The logical sequence loses exactly element `index`, the rest in order, and the layout invariant holds |
| FastVectors.FastVector.RemoveLast | src/FastVector.h:437-441 | Removing the last element drops it, and a gap that would trail the elements is closed |
| FastVectors.FastVector.WidenGap | src/FastVector.h:443-449 | Removing next to the gap widens it by one slot and drops exactly that element |
| FastVectors.FastVector.OpenGap | src/FastVector.h:450-454 | Removing without a gap opens a one-slot gap in place of that element |
| FastVectors.FastVector.ShrinkIfSparse | src/FastVector.h:457-461 | A vector under a third full (and above the minimum size) closes its gap and shrinks. The logical sequence is unchanged |
| FastVectors.FastVector.PushFront | src/FastVector.h:293 | `push_front(x)` makes the sequence `[x] + old` |
| FastVectors.FastVector.PushBack | src/FastVector.h:294 | `push_back(x)` makes the sequence `old + [x]` |
| FastVectors.FastVector.Erase | src/FastVector.h:304-308 | Erasing element `i` removes exactly it and returns position `i` |
| FastVectors.FastVector.EraseRange | src/FastVector.h:533-540 | `erase(first, last)` removes exactly the elements in `[first, last)` and returns position `first` |
| FastVectors.FastVector.Clear | src/FastVector.h:542-548 | The vector is empty afterwards |
| FastVectors.FastVector.Copy | src/FastVector.h:366-373 | The copy constructor gives a fresh array with the same logical sequence |
| FastVectors.FastVector.Assign | src/FastVector.h:382-393 | After assignment the sequence equals the source's (self-assignment included) |
| FastVectors.FastVector.Array | src/FastVector.h:550-563 | `array(index, n)` moves the gap out of the way so that raw slots `offset..offset+n` hold logical elements `index..index+n`. The sequence is unchanged |
| FastVectors.Equal | src/FastVector.h:565-573 | `operator==` holds exactly when the two logical sequences are equal |
| MappedEvents.ToMidiByte | src/MappedEvent.cpp:57-91 | Conversion to `MidiByte` keeps a value in 0..255 and otherwise keeps its low 8 bits |
| MappedEvents.TypeBit | src/RosegardenSequencer.cpp:877 | An event type's filter bit is zero exactly for `InvalidMappedEvent` |
| MappedEvents.TypeBitsDisjoint | src/RosegardenSequencer.cpp:877 | Two different event types have disjoint filter bits |
| MappedEvents.Defaults | src/MappedEvent.cpp:33-47 | Before dispatch an event is a MIDI note on no track, with zero data bytes, no data block and runtime segment id -1 |
| MappedEvents.AudioMappedEvent | src/AudioSegmentMapper.cpp:78-84 | An audio event carries its instrument, times and start marker. The 16-bit audio file id is split into a low byte and a high byte. Nothing else is set |
| MappedEvents.SimpleMappedEvent | src/SequenceManager.cpp:371-373 | The `(instrument, type, data1, data2)` event sets exactly those fields, at time zero |
| MappedEvents.NoteMapping | src/MappedEvent.cpp:57-61 | A note becomes `MidiNote` with `data1` the pitch and `data2` the velocity. A missing velocity gives `MidiMaxValue`; a missing pitch leaves 0 |
| MappedEvents.TwoByteMapping | src/MappedEvent.cpp:62-80 | Pitch bend, controller and key pressure take their own tags and both data bytes. A missing value leaves both bytes 0 |
| MappedEvents.OneByteMapping | src/MappedEvent.cpp:72-84 | Program change and channel pressure take their own tags and one data byte. `data2` stays 0 |
| MappedEvents.TextMapping | src/MappedEvent.cpp:92-113 | Annotation and LilyPond-directive text is invalid. Other text becomes `Text`, with `MIDI_LYRIC` for lyrics and `MIDI_TEXT_EVENT` otherwise, and its text as the data block. A missing text type leaves the defaults |
| MappedEvents.DispatchFrame | src/MappedEvent.cpp:30-143 | Dispatch changes only the tag and the two data bytes of the defaults, whatever is thrown part-way |
| MappedEvents.InvalidExactly | src/MappedEvent.cpp:92-117 | An event is invalid exactly when its kind is unrecognised, or it is annotation or LilyPond-directive text |
| MappedEvents.LessIsStrictWeakOrder | src/MappedEvent.cpp:145-147 | `operator<` is a strict weak order in which two events are equivalent exactly when their times are equal |
| MappedEvents.CopyFields | src/MappedEvent.cpp:149-169 | `operator=` reproduces the source event in all fifteen fields |
| MappedEvents.IdBound | src/MappedEvent.cpp:342-352 | Every finite id set has a positive bound above all its ids, so a fresh nonzero id always exists |
| MappedEvents.DataBlockRepository.constructor | src/MappedEvent.cpp:294-301 | A new repository holds no blocks |
| MappedEvents.DataBlockRepository.GetDataBlock | src/MappedEvent.cpp:294-301 | A stored block is returned; an unknown id gives the empty string |
| MappedEvents.DataBlockRepository.GetDataBlockForEvent | src/MappedEvent.cpp:303-313 | Data-block id 0 gives the empty string; otherwise the event's block is looked up |
| MappedEvents.DataBlockRepository.RegisterDataBlock | src/MappedEvent.cpp:342-352 | The new id is positive and not in use, and the store gains exactly that entry (of the intended store; see "## Left out") |
| MappedEvents.DataBlockRepository.UnregisterDataBlock | src/MappedEvent.cpp:354-359 | Exactly that id leaves the store |
| MappedEvents.DataBlockRepository.RegisterDataBlockForEvent | src/MappedEvent.cpp:361-364 | The event keeps every field except its data-block id, which is a fresh positive id mapped to the bytes |
| MappedEvents.DataBlockRepository.UnregisterDataBlockForEvent | src/MappedEvent.cpp:366-369 | The event's block leaves the store |
| MappedEvents.DataBlockRepository.SetDataBlockForEvent | src/MappedEvent.cpp:315-335 | An event without a block gets a freshly registered one. An event with a block has it extended (`extend`) or replaced, and the event itself is unchanged |
| MappedEvents.MakeMappedEvent | src/MappedEvent.cpp:30-143 | The constructor's result is the dispatch. When the event carries a payload (system exclusive, text), that payload is registered under a fresh block id and can be read back from the event |
| MidiEvents.DefaultMidiEvent | src/MidiEvent.cpp:22-29 | Every numeric field is zero and the message is empty |
| MidiEvents.OneByteEvent | src/MidiEvent.cpp:31-39 | Time, status and first data byte are set. Duration, second byte and meta code are zero and the message is empty |
| MidiEvents.TwoByteEvent | src/MidiEvent.cpp:41-49 | Time, status and both data bytes are set. Duration and meta code are zero |
| MidiEvents.MetaEvent | src/MidiEvent.cpp:51-60 | Meta code and message are stored, with zero data bytes and zero duration |
| MidiEvents.SysExEvent | src/MidiEvent.cpp:62-70 | The system-exclusive bytes go into the message field, with meta code 0 and zero data bytes |
| MidiEvents.ConstructorsAgree | src/MidiEvent.cpp:22-70 | The constructors are consistent: a one-byte event is a two-byte event with `data2 = 0`, and a sysex event is a meta event with code 0 |
| SegmentMappers.RepeatCountZeroUnlessRepeating | src/SegmentMapper.cpp:73-88 | The repeat count is 0 unless the segment repeats and has positive duration |
| SegmentMappers.RepeatCountCovers | src/SegmentMapper.cpp:81-85 | For a repeating segment that ends at or before its repeat end, `n` repeats reach the repeat end and `n + 1` would pass it |
| SegmentMappers.RepeatCountTruncates | src/SegmentMapper.cpp:83-84 | A repeat end inside the last period before the segment's end gives a count of 1, because the negative quotient truncates toward zero |
| SegmentMappers.ArchivedAlwaysMuted | src/SegmentMapper.cpp:100-101 | An archived track is muted whatever the solo and mute state |
| SegmentMappers.SoloIgnoresMute | src/SegmentMapper.cpp:103-106 | While any track is soloed, a track is muted exactly when it is not soloed, and the mute set plays no part |
| SegmentMappers.NoSoloMuteDecides | src/SegmentMapper.cpp:108-109 | With nothing soloed, a track is muted exactly when its mute flag is set, and the solo set plays no part |
| SegmentMappers.TrackID | src/SegmentMapper.cpp:90-94 | The track of the segment, or `UINT_MAX` when there is no segment |
| SegmentMappers.MakeMapperForSegment | src/SegmentMapper.cpp:44-71 | No mapper exactly for a null segment or an unsupported type. Otherwise the mapper is for that segment, initialised, and internal exactly for an internal segment |
| SegmentMappers.PlayTimesFromShape | src/AudioSegmentMapper.cpp:48-68 | The play times are `start + k·duration` for consecutive `k`, all before the repeat end, and at most one per repetition up to `last`. Emission stops before repetition `last` only at the first play time at or after the repeat end |
| SegmentMappers.PlayTimesIncrease | src/AudioSegmentMapper.cpp:65-68 | Play times strictly increase |
| SegmentMappers.PlayTimesFit | src/AudioSegmentMapper.cpp:108-116 | There are never more play times than `calculateSize` allots |
| SegmentMappers.OverCountExample | src/AudioSegmentMapper.cpp:53-68 | Start 0, end 100, repeat end 250 gives a repeat count of 2 and three triggers, at 0, 100 and 200 |
| SegmentMappers.SingleTriggerWithoutRepeat | src/AudioSegmentMapper.cpp:59-68 | A non-repeating segment of positive duration triggers once, at its start |
| SegmentMappers.AudioTrigger | src/AudioSegmentMapper.cpp:70-96 | Each trigger is an audio event at `toRealTime(playTime + delay) + realTimeDelay`, lasting `audioEnd − audioStart`, with the track's instrument and id and the segment's runtime id. The fade fields are set only when auto-fading |
| SegmentMappers.ShouldPlay | src/AudioSegmentMapper.cpp:118-127 | A muted segment never plays. Otherwise an event plays exactly when it has not ended before the slice start |
| SegmentMappers.AudioSegmentMapper.constructor | src/AudioSegmentMapper.cpp:108-116 | The buffer is allocated with `calculateSize` slots |
| SegmentMappers.AudioSegmentMapper.FillBuffer | src/AudioSegmentMapper.cpp:39-106 | A segment on a missing track writes nothing. Otherwise the buffer holds exactly one trigger per play time, in order, and the fill count is the number of play times |
| Sequencers.PropertyWritesSound | src/RosegardenSequencer.cpp:423-442 | At most one write per list index. Every write targets an existing studio object, and there is one write per index when all ids exist |
| Sequencers.FilteredExactly | src/RosegardenSequencer.cpp:865-883 | Filtering removes exactly the events that match the type filter or come from the control device, and keeps every other event's multiplicity |
| Sequencers.FilteredAppend | src/RosegardenSequencer.cpp:865-883 | Filtering distributes over concatenation, so kept events stay in their order |
| Sequencers.ApplyFiltering | src/RosegardenSequencer.cpp:865-883 | The erase loop leaves exactly the filtered list |
| Sequencers.FetchEnd | src/RosegardenSequencer.cpp:821-824 | The fetch end is at most one read-ahead past the song position, and before the loop end when looping; clamping is the only way it can be less |
| Sequencers.RosegardenSequencer.constructor | src/RosegardenSequencer.cpp:55-107 | A new sequencer is in QUIT at position zero, with token 1 and empty queues |
| Sequencers.RosegardenSequencer.Quit | src/RosegardenSequencer.cpp:140-146 | The status becomes QUIT |
| Sequencers.RosegardenSequencer.PunchOut | src/RosegardenSequencer.cpp:208-217 | Only RECORDING punches out, to PLAYING, and reports true; any other status is kept and reports false |
| Sequencers.RosegardenSequencer.Play | src/RosegardenSequencer.cpp:153-199 | Already playing: true, nothing changes. Recording: switches to PLAYING and reports false. Otherwise the position moves to `t` and the status becomes STARTING_TO_PLAY, or stays STARTING_TO_RECORD |
| Sequencers.RosegardenSequencer.JumpTo | src/RosegardenSequencer.cpp:222-264 | A negative position changes nothing. Otherwise song, fetch and pointer positions move to it and the token goes up by one |
| Sequencers.RosegardenSequencer.SetLoop | src/RosegardenSequencer.cpp:266-272 | The loop bounds are set |
| Sequencers.RosegardenSequencer.ProcessMappedEvent | src/RosegardenSequencer.cpp:309-314 | A copy of the event is appended to the outgoing queue |
| Sequencers.RosegardenSequencer.PullAsynchronousMidiQueue | src/RosegardenSequencer.cpp:738-743 | The whole incoming queue is returned and the queue is emptied |
| Sequencers.RosegardenSequencer.SetMappedProperties | src/RosegardenSequencer.cpp:423-442 | One property write is logged per index of the shortest list whose id names a studio object |
| Sequencers.RosegardenSequencer.SegmentModified | src/RosegardenSequencer.cpp:686-696 | A null mapper is ignored. Otherwise the segment's iterator is reset, immediately only while playing |
| Sequencers.RosegardenSequencer.SegmentAdded | src/RosegardenSequencer.cpp:698-705 | A non-null mapper is added to the meta-iterator |
| Sequencers.RosegardenSequencer.SegmentAboutToBeDeleted | src/RosegardenSequencer.cpp:707-713 | A non-null mapper is removed from the meta-iterator |
| Sequencers.RosegardenSequencer.CompositionAboutToBeDeleted | src/RosegardenSequencer.cpp:715-717 | The meta-iterator is cleared |
| Sequencers.RosegardenSequencer.GetNextTransportRequest | src/RosegardenSequencer.cpp:723-736 | An empty FIFO yields nothing. Otherwise the oldest request is popped and returned |
| Sequencers.RosegardenSequencer.GetSlice | src/RosegardenSequencer.cpp:762-778 | The iterator seeks only on a first fetch or a backward start. The slice's events are appended and the start is remembered |
| Sequencers.RosegardenSequencer.FetchEvents | src/RosegardenSequencer.cpp:749-760 | STOPPED or STOPPING fetches nothing; otherwise it is `getSlice` |
| Sequencers.RosegardenSequencer.StartPlaying | src/RosegardenSequencer.cpp:787-814 | The first fetch covers one read-ahead from the song position, after a seek. Audio events are requested and the token goes up by one |
| Sequencers.RosegardenSequencer.KeepPlaying | src/RosegardenSequencer.cpp:816-841 | Only the window from the last fetch to the fetch end is fetched, if it is non-empty. The last-fetch position never decreases |
| Sequencers.RosegardenSequencer.TransportChange | src/RosegardenSequencer.cpp:912-922 | The request is queued. The returned token is already complete exactly for `NoChange` |
| Sequencers.RosegardenSequencer.TransportJump | src/RosegardenSequencer.cpp:924-934 | The request and time are queued, and the returned token is never already complete |
| Sequencers.RosegardenSequencer.IncrementTransportToken | src/RosegardenSequencer.cpp:941-943 | The token goes up by one. A complete token stays complete, and only the new token becomes complete |
| SequenceManagers.AscendingSpec | src/SequenceManager.cpp:574-575 | The ascending enumeration of a key set holds exactly its keys, strictly increasing |
| SequenceManagers.AscendingVisitsOnce | src/SequenceManager.cpp:574-575 | Map iteration visits every key exactly once |
| SequenceManagers.InOrder | src/SequenceManager.cpp:574-575 | The selection loop produces the keys in ascending order |
| SequenceManagers.ElementsSpec | src/SequenceManager.cpp:566-569 | The set of queued segments is exactly the queue's members |
| SequenceManagers.RemoveFirstCount | src/SequenceManager.cpp:607-620 | Removing from the added queue removes exactly one occurrence, if any |
| SequenceManagers.RemoveFirstLength | src/SequenceManager.cpp:607-620 | An absent segment leaves the queue alone; a present one shortens it by one |
| SequenceManagers.RemoveFirstKeepsOrder | src/SequenceManager.cpp:607-620 | It is the first occurrence that goes, and the rest keep their order |
| SequenceManagers.RewindTarget | src/SequenceManager.cpp:140-145 | Rewind never lands before the start marker, and lands on the marker or the chosen bar start |
| SequenceManagers.RewindMovesBack | src/SequenceManager.cpp:112-137 | The chosen bar start is before the position. An extra bar is taken exactly when playing, the last rewind was 0–200 ms ago and the position is at or before the bar's half-way point |
| SequenceManagers.FastforwardTarget | src/SequenceManager.cpp:153-158 | Fast-forward never passes the end marker, and lands on it or the bar end |
| SequenceManagers.FastforwardMovesForward | src/SequenceManager.cpp:153-158 | Before the end marker, with a bar end ahead, fast-forward moves forward |
| SequenceManagers.ResetEvents | src/SequenceManager.cpp:370-382 | Exactly 16 controller events with `MIDI_SYSTEM_RESET`, on instruments `MidiInstrumentBase + 0` to `+ 15` |
| SequenceManagers.MapperEntries | src/SequenceManager.cpp:984-987 | One segment-mapper entry per mapped segment, in the given order |
| SequenceManagers.CallsSpec | src/SequenceManager.cpp:562-592 | Each queued segment produces one mapper call of the pass's kind, in queue order |
| SequenceManagers.CallsAppend | src/SequenceManager.cpp:562-592 | One more queued segment adds exactly one call at the end |
| SequenceManagers.TriggerSegmentsOfLast | src/SequenceManager.cpp:522-535 | The trigger segments of a list are those of its prefix plus the last one |
| SequenceManagers.ReferencedSpec | src/SequenceManager.cpp:537-543 | A runtime id is referenced exactly when some trigger segment that needs a refresh refers to it |
| SequenceManagers.TriggerPassStep | src/SequenceManager.cpp:522-549 | The trigger pass over one more record is the pass so far, followed by one visit of that record |
| SequenceManagers.TriggerVisitSpec | src/SequenceManager.cpp:527-548 | Visiting a trigger segment only clears or appends flags, and leaves its own flag cleared at a valid id |
| SequenceManagers.TriggerVisitKeeps | src/SequenceManager.cpp:527-548 | A known trigger keeps its id, the visit reports whether it needed a refresh, and no other segment's flags change |
| SequenceManagers.TriggerPassValid | src/SequenceManager.cpp:522-551 | The trigger pass only clears or appends flags, and old and new ids stay valid |
| SequenceManagers.TriggerPassKeys | src/SequenceManager.cpp:522-551 | The new trigger map holds exactly the composition's trigger segments, and known ones keep their ids |
| SequenceManagers.TriggerPassUntouched | src/SequenceManager.cpp:522-551 | A segment that is not a trigger segment keeps its flags |
| SequenceManagers.TriggerPassReferenced | src/SequenceManager.cpp:537-543 | With distinct trigger segments, the collected runtime ids are exactly the referenced ones |
| SequenceManagers.TriggerPassClear | src/SequenceManager.cpp:545-547 | Every id the new trigger map holds is valid and its flag is clear afterwards, even when a trigger segment repeats |
| SequenceManagers.RemappedSpec | src/SequenceManager.cpp:577-579 | A current segment is re-mapped exactly when its own flag is set or its runtime id was referenced |
| SequenceManagers.RemapPassStep | src/SequenceManager.cpp:574-584 | The pass over one more key is the pass so far, followed by one visit of that key |
| SequenceManagers.RemapPassSpec | src/SequenceManager.cpp:574-584 | Over distinct held keys, the re-mapped segments are exactly those needing it, their flags are cleared, and other segments keep their flags |
| SequenceManagers.CurrentPassClears | src/SequenceManager.cpp:574-584 | The pass in map order re-maps exactly the segments needing it and leaves every held flag clear |
| SequenceManagers.ClearIsSuchOrSame | src/SequenceManager.cpp:580-582 | Visiting one segment only clears flags, and clears its own |
| SequenceManagers.OnlyClearsOrAppendsTrans | src/SequenceManager.cpp:498-593 | Clearing or appending flags composes |
| SequenceManagers.OnlyClearsOrAppendsKeeps | src/SequenceManager.cpp:498-593 | Clearing or appending flags keeps every held id valid, and keeps clear flags clear |
| SequenceManagers.AppendIsSuch | src/SequenceManager.cpp:531 | A new refresh-status id only appends a flag |
| SequenceManagers.ClearIsSuch | src/SequenceManager.cpp:546-547 | Clearing one flag is such a change |
| SequenceManagers.SequenceManager.constructor | src/SequenceManager.cpp:70-92 | A new manager is stopped, with empty maps and queues and no cached sample rate |
| SequenceManagers.SequenceManager.SegmentAddedToComposition | src/SequenceManager.cpp:602-605 | The segment is only queued for addition |
| SequenceManagers.SequenceManager.SegmentRemoved | src/SequenceManager.cpp:607-620 | The segment is queued for removal and its first occurrence leaves the added queue |
| SequenceManagers.SequenceManager.SegmentModified | src/SequenceManager.cpp:595-600 | One modification is sent to the mapper |
| SequenceManagers.SequenceManager.SegmentAdded | src/SequenceManager.cpp:667-676 | The segment is mapped. A new segment gets a fresh refresh id, which only appends a flag |
| SequenceManagers.SequenceManager.SegmentDeleted | src/SequenceManager.cpp:678-709 | The segment is unmapped and its entry is erased |
| SequenceManagers.SequenceManager.Rewind | src/SequenceManager.cpp:103-146 | No document changes nothing. Otherwise the pointer moves to the rewind target, and the press time is recorded only while playing. Only the pointer moves: markers, segments, trigger segments, tracks, events and refresh flags stay as they were |
| SequenceManagers.SequenceManager.Fastforward | src/SequenceManager.cpp:148-161 | The pointer moves to the fast-forward target. Only the pointer moves: markers, segments, trigger segments, tracks, events and refresh flags stay as they were |
| SequenceManagers.SequenceManager.RewindToBeginning | src/SequenceManager.cpp:171-174 | The pointer moves to the start marker |
| SequenceManagers.SequenceManager.FastForwardToEnd | src/SequenceManager.cpp:176-179 | The pointer moves to the end marker |
| SequenceManagers.SequenceManager.ResetMidiNetwork | src/SequenceManager.cpp:364-383 | Exactly one burst, the 16 reset events, is sent |
| SequenceManagers.SequenceManager.GetSampleRate | src/SequenceManager.cpp:940-949 | A cached nonzero rate is returned. Otherwise the sequencer's rate is fetched and cached |
| SequenceManagers.SequenceManager.MakeTempMetaiterator | src/SequenceManager.cpp:969-992 | Tempo, time-signature and marker mappers come first, then each mapped segment exactly once, in ascending order |
| SequenceManagers.SequenceManager.PopulateCompositionMapper | src/SequenceManager.cpp:421-436 | Every composition segment is added in order, and every trigger segment gets a refresh id. Existing ids are kept |
| SequenceManagers.SequenceManager.TakeTriggerIds | src/SequenceManager.cpp:429-435 | Every trigger segment gets an id, and known ones keep theirs |
| SequenceManagers.SequenceManager.TakeTriggerId | src/SequenceManager.cpp:432-434 | A new trigger segment gets a fresh refresh id |
| SequenceManagers.SequenceManager.AddAll | src/SequenceManager.cpp:586-592 | Each queued segment is added in order and mapped, and known segments keep their ids. A queued segment that was not mapped before holds a new id whose flag is set |
| SequenceManagers.SequenceManager.AddNext | src/SequenceManager.cpp:588-591 | One more `segmentAdded` extends the account of the added prefix by one segment: one more add call, one more mapped segment, known ids kept and a new segment flagged |
| SequenceManagers.AddedToStep | src/SequenceManager.cpp:588-591 | Adding one more queued segment keeps every earlier new segment flagged, flags the new one unless it was held, and keeps every held id |
| SequenceManagers.SequenceManager.Refresh | src/SequenceManager.cpp:498-593 | Deletions, then modifications (in map order, of exactly the segments needing it), then additions. The trigger map becomes the trigger pass's, every trigger flag it holds is clear, and both queues end empty. Every segment kept from before has its flag clear. An added segment that was not kept from before holds a new id whose flag is set; one that was kept keeps its old id, since `insert` does not overwrite |
| SequenceManagers.SequenceManager.RefreshSegments | src/SequenceManager.cpp:562-592 | The three segment passes, in order, given the referenced runtime ids. Kept segments end with their flags clear, and an added segment that was not kept holds a new, flagged id |
| SequenceManagers.SequenceManager.RefreshTriggers | src/SequenceManager.cpp:522-551 | The trigger loop computes exactly the trigger pass: new flags, new trigger map and referenced ids |
| SequenceManagers.SequenceManager.TriggerStep | src/SequenceManager.cpp:527-548 | One iteration of the trigger loop is one trigger visit |
| SequenceManagers.SequenceManager.RemovePass | src/SequenceManager.cpp:566-570 | Each removed segment is deleted in order and the removed queue is emptied |
| SequenceManagers.SequenceManager.CurrentPass | src/SequenceManager.cpp:574-584 | The loop over current segments computes exactly the remap pass in ascending key order |
| SequenceManagers.SequenceManager.VisitKey | src/SequenceManager.cpp:574-584 | One more key of the ascending order has been visited |
| SequenceManagers.SequenceManager.RemapStep | src/SequenceManager.cpp:577-583 | A segment is re-mapped and its flag cleared exactly when it needs it |
| Documents.ElementCountAppend | src/RosegardenDocument.cpp:823-829 | The element count of a concatenation is the sum, plus one when a `<` ends the first part and the second does not start with `/` |
| Documents.ElementCountBound | src/RosegardenDocument.cpp:823-829 | There are at most `length − 1` elements, and none in the empty string |
| Documents.AsWrittenScanInBounds | src/RosegardenDocument.cpp:824 | The unsigned loop bound stays inside the string exactly when it is non-empty. For the empty string it wraps to 2^64 − 1 |
| Documents.CountElements | src/RosegardenDocument.cpp:823-829 | The counting loop (with the empty string guarded) counts the `<` characters not followed by `/` |
| Documents.Targets | src/RosegardenDocument.cpp:974-1003 | At most one insertion per recording segment |
| Documents.TargetsSpec | src/RosegardenDocument.cpp:980-989 | A recording segment receives the event exactly when its track exists, the channel filter is negative or matches, and the device filter is `ALL_DEVICES` or matches |
| Documents.AddEachCounts | src/RosegardenDocument.cpp:991 | Each target segment gains one copy of the event per insertion, and nothing else changes |
| Documents.RememberedStep | src/RosegardenDocument.cpp:993-997 | Each note-on insertion appends one record at its pitch key |
| Documents.Adjusted | src/RosegardenDocument.cpp:908-923 | The onset is kept and the duration becomes `endTime − onset`, bumped to 1 only when exactly 0. Type, sub-ordering and properties are copied |
| Documents.AdjustedKeepsNegative | src/RosegardenDocument.cpp:910-913 | A note starting after the end time keeps a negative duration |
| Documents.AdjustedRecordsPointwise | src/RosegardenDocument.cpp:897-948 | One adjusted record per input, in order, in the same segment |
| Documents.ReplaceByEraseInsert | src/RosegardenDocument.cpp:925-940 | Erasing the old event and inserting the new one is one replacement |
| Documents.ReplaceKeepsSize | src/RosegardenDocument.cpp:925-940 | A replacement keeps the segment's size and puts the adjusted event in it |
| Documents.ReplaceAllElsewhere | src/RosegardenDocument.cpp:897-948 | Segments without records are untouched |
| Documents.TweakedStep | src/RosegardenDocument.cpp:865-880 | Each non-empty note-on list is replaced by its adjusted records, and empty lists are dropped |
| Documents.KeyLeOrder | src/RosegardenDocument.cpp:866-871 | The nested device/channel/pitch iteration order is a total order |
| Documents.MinKeyExists | src/RosegardenDocument.cpp:866-871 | Every non-empty key set has a least key |
| Documents.SortedKeysStep | src/RosegardenDocument.cpp:866-871 | Taking the least remaining key continues the iteration order |
| Documents.UpdateAllStep | src/RosegardenDocument.cpp:866-880 | One more key applies its adjustments to the segments, if its list is non-empty |
| Documents.TargetsStep | src/RosegardenDocument.cpp:974-989 | The insertion targets of one more recording segment are the ones so far, plus that segment if it takes the event |
| Documents.AddEachStep | src/RosegardenDocument.cpp:991 | One more insertion adds one copy to that segment |
| Documents.TargetsPrefix | src/RosegardenDocument.cpp:974-1003 | The targets of a prefix are a prefix of the targets |
| Documents.RosegardenDocument.constructor | src/RosegardenDocument.cpp:98-127 | A new document is unmodified and untitled, and has no quick marker (-1) |
| Documents.RosegardenDocument.NewDocument | src/RosegardenDocument.cpp:247-253 | The document becomes unmodified, untitled and without a path |
| Documents.RosegardenDocument.SetModified | src/RosegardenDocument.cpp:194-203 | The document is modified. Auto-saved survives only if it was already modified |
| Documents.RosegardenDocument.ClearModifiedStatus | src/RosegardenDocument.cpp:205-210 | Unmodified and auto-saved |
| Documents.RosegardenDocument.SlotDocumentModified | src/RosegardenDocument.cpp:212-217 | Modified and not auto-saved |
| Documents.RosegardenDocument.SlotDocumentRestored | src/RosegardenDocument.cpp:219-225 | Only the modified flag is cleared |
| Documents.RosegardenDocument.SlotSetPointerPosition | src/RosegardenDocument.cpp:1014-1017 | The pointer moves to the given time |
| Documents.RosegardenDocument.SetQuickMarker | src/RosegardenDocument.cpp:227-229 | The marker is the current pointer position |
| Documents.RosegardenDocument.JumpToQuickMarker | src/RosegardenDocument.cpp:231-234 | The pointer moves to the marker only when one is set |
| Documents.RosegardenDocument.StoreNoteOnEvent | src/RosegardenDocument.cpp:953-964 | One record is appended at `[device][channel][pitch]` and no other key changes. A missing pitch changes nothing |
| Documents.RosegardenDocument.InsertRecordedEvent | src/RosegardenDocument.cpp:966-1004 | The event is inserted into every target, in order. Note-ons are remembered for exactly those insertions. A note-on without pitch stops after its first insertion |
| Documents.RosegardenDocument.InsertInto | src/RosegardenDocument.cpp:991-997 | One target gets the event and, for a note-on with a pitch, a note-on record |
| Documents.RosegardenDocument.AdjustEndTimes | src/RosegardenDocument.cpp:887-951 | The result is the adjusted records, and the segments have each old event replaced by its adjusted copy |
| Documents.RosegardenDocument.AdjustOne | src/RosegardenDocument.cpp:908-947 | One record's event is replaced by its adjusted copy, in the same segment |
| Documents.RosegardenDocument.UpdateRecordingMidiSegment | src/RosegardenDocument.cpp:854-882 | Without recording segments nothing changes. Otherwise the note-on map becomes the tweaked map at the pointer, with its events adjusted in key order |
| Documents.RosegardenDocument.UpdateKey | src/RosegardenDocument.cpp:870-879 | One key of the note-on map is tweaked and its events adjusted |
| XmlStorableEvents.Trim | src/XmlStorableEvent.cpp:75 | Trimming never lengthens a string and leaves no white space at either end |
| XmlStorableEvents.ToInt | src/XmlStorableEvent.cpp:75 | A parsed value always fits in 32 bits |
| XmlStorableEvents.NatToDigits | src/XmlStorableEvent.cpp:129-131 | Decimal rendering is a non-empty digit string |
| XmlStorableEvents.DigitsRoundTrip | src/XmlStorableEvent.cpp:129-131 | Reading back the digits of `n` gives `n` |
| XmlStorableEvents.TrimNoSpace | src/XmlStorableEvent.cpp:129-131 | A string without white space trims to itself |
| XmlStorableEvents.IntToStringNoSpace | src/XmlStorableEvent.cpp:129-131 | An integer's decimal form has no white space |
| XmlStorableEvents.ParseIntToString | src/XmlStorableEvent.cpp:129-131 | Decimal parsing inverts decimal rendering |
| XmlStorableEvents.ToIntRoundTrip | src/XmlStorableEvent.cpp:129-131 | `toInt` reads back every 32-bit integer written in decimal |
| XmlStorableEvents.ToIntRejects | src/XmlStorableEvent.cpp:129-131 | The empty string, a lone sign and blank text are not numbers |
| XmlStorableEvents.AsciiLower | src/XmlStorableEvent.cpp:119 | Lower-casing keeps the length and changes exactly the upper-case letters |
| XmlStorableEvents.Classify | src/XmlStorableEvent.cpp:118-137 | Case-insensitive "true"/"false" is a Bool, else an integer is an Int, else the text is a String |
| XmlStorableEvents.ClassifyBoolean | src/XmlStorableEvent.cpp:123-125 | An example of `Classify`: "TRUE" is the Bool true |
| XmlStorableEvents.ClassifyNumber | src/XmlStorableEvent.cpp:129-131 | An example of `Classify`: "-12" is the Int -12 |
| XmlStorableEvents.InterpretAppend | src/XmlStorableEvent.cpp:65-139 | Attributes are interpreted one after another, in order |
| XmlStorableEvents.TimeOnlyFromTimeAttributes | src/XmlStorableEvent.cpp:95-111 | Only `absoluteTime` and `timeOffset` move the running time |
| XmlStorableEvents.TimeAttributes | src/XmlStorableEvent.cpp:95-111 | A numeric `absoluteTime` overwrites the running time and a numeric `timeOffset` adds to it. Non-numeric values are ignored |
| XmlStorableEvents.DurationAttribute | src/XmlStorableEvent.cpp:82-93 | A numeric duration is taken as is, a note name gives its duration, and a malformed name leaves it unchanged |
| XmlStorableEvents.SubOrderingAttribute | src/XmlStorableEvent.cpp:73-80 | Sub-ordering is set only by a numeric non-zero value |
| XmlStorableEvents.PackageAndType | src/XmlStorableEvent.cpp:69-71 | `package` is ignored and `type` sets the event type |
| XmlStorableEvents.GenericAttribute | src/XmlStorableEvent.cpp:113-137 | Any other attribute sets a persistent property of its classified type, and nothing else |
| XmlStorableEvents.AttributeValue | src/XmlStorableEvent.cpp:156 | A non-empty value looked up by name comes from an attribute of that name |
| XmlStorableEvents.FirstTypedNone | src/XmlStorableEvent.cpp:159-180 | No typed value exactly when no attribute is `bool`, `int` or `string` |
| XmlStorableEvents.FirstTypedIsFirst | src/XmlStorableEvent.cpp:159-180 | The typed value is that of the first typed attribute, and later ones are ignored |
| XmlStorableEvents.XmlStorableEvent.Empty | src/XmlStorableEvent.cpp:61-63 | Loading starts from an empty event with duration 0 |
| XmlStorableEvents.XmlStorableEvent.SetPropertyFromAttributes | src/XmlStorableEvent.cpp:153-181 | An empty name changes nothing, and so does having no typed attribute. Otherwise the first typed attribute sets the property, with the given persistence |
| XmlStorableEvents.NewXmlStorableEvent | src/XmlStorableEvent.cpp:61-149 | The event and the in/out time are the result of interpreting the attributes in order, with the final time as the event's absolute time |

## Left out

- Constants from headers that are not part of this model are written out in
  the Dafny files: the `MIDI_*` status and meta codes, `MidiInstrumentBase`
  (2000), `NO_TRACK`, `Device::ALL_DEVICES` and `Device::CONTROL_DEVICE`,
  and the `MappedEvent` type bits.
- `RealTime`, `timeT`, `int` and `unsigned` are unbounded integers. The only
  wrap-arounds modelled are the 8-bit data bytes, the 16-bit audio file id,
  the 32-bit range of `toInt` and the unsigned loop bound in `xmlParse`.
- `DataBlockFile` temp-file storage is a stub in this program
  (src/MappedEvent.cpp:227-260): `exists()` is always false, `getData()`
  returns the empty string, and `setData`/`addDataString` write nothing. So
  the program's `getDataBlock` always returns "", and `registerDataBlock`
  takes the first nonzero `random()` draw without any real uniqueness check.
  The model keeps the intended store instead, a map from id to bytes, and
  the redraw loop becomes the choice of any unused positive id.
  `hasDataBlock`, `clear` (its body is commented out) and
  `addDataByteForEvent` are not modelled.
- MappedEvents.DataBlockRepository.GetDataBlock: the lookup holds of the
  intended store; the stub as written always returns "".
- MappedEvents.DataBlockRepository.RegisterDataBlock: freshness holds of the
  intended store; the stub as written never sees an id in use.
- MappedEvents.MakeMappedEvent: reading the payload back holds of the
  intended store; the stub as written stores nothing.
- `operator=`'s self-assignment check is not separate: copying a value onto
  itself changes nothing in a value model.
- The meta-iterator (`MappedBufMetaIterator`) and the composition mapper are
  not part of this model. The calls made on them are recorded in a log, and
  the events a fetch produces are a parameter (`produced`).
- `clock()` in `rewind` becomes a `now` parameter, with `CLOCKS_PER_SEC` =
  1000000. `getBarRangeForTime` and `getBarEndForTime` are abstract
  functions. `RewindMovesBack` assumes (`BarsCover`) that every time lies in
  its bar.
- `Composition::getElapsedRealTime`, the control block queries and the note
  name lookup (`NotationStrings::getNoteForName`) are abstract parameters.
- `SequenceManager::setTempo` (floating-point arithmetic), `setLoop`,
  `update`, `tracksAdded`, the metronome and the other passthroughs are not
  modelled. So are `RosegardenSequencer::record` and `stop` (empty bodies),
  and the device, timer, plugin and studio-object functions.
- `lock()`/`unlock()` are empty and there is no concurrency. The
  `getInstance` singletons become explicitly passed objects.
- `FastVector` iterators, the templated range insert, comparison operators
  other than `==`, and the object lifetime of memmoved elements are not
  modelled.
- `Event`, `Segment` and `Composition` are not part of this model. A segment
  is an address, and its events are a multiset; an iterator into a segment
  is the event it points at. Segment insertion order is not captured.
- The note-on map `[device][channel][pitch]` is flattened to one map keyed by
  the triple. Its nested iteration order is the lexicographic order of the
  triple. The recording-segment map is a sequence in its iteration order.
- In this program the recording-segment map is never filled:
  `insertRecordedMidi` (src/RosegardenDocument.cpp:851-852) and
  `addRecordMIDISegment` (src/RosegardenDocument.cpp:1027) are empty. So
  `InsertRecordedEvent` and `UpdateRecordingMidiSegment` model code that does
  not run here; the model states what it would do given recording
  segments.
- Documents.RosegardenDocument.InsertRecordedEvent: the exception thrown by
  `get<Int>(PITCH)` on a note-on without pitch is modelled as stopping the
  loop after that insertion and reporting failure; the exception itself is
  not modelled.
- SequenceManagers.TriggerPassReferenced: the collected runtime ids are
  characterised only when the composition's trigger segments are distinct.
  A repeated trigger segment is visited twice, and only the last visit's
  references are guaranteed. `Refresh` itself is stated exactly through
  `TriggerPass`, with no such restriction.
- `openDocument`, the Qt XML reader inside `xmlParse`, `initialiseStudio`,
  audio recording updates, and file and console I/O are not modelled.
  `toInt` and `toLower` are modelled on ASCII only.
- Where the code and its documented intent differ, the model follows the
  code, except for the data-block store above. The sequencer's constructor always ends in QUIT, because the driver
  creation is commented out. `stop()` is empty. `adjustEndTimes` bumps only
  an exactly-zero duration, so negative durations are kept.

## Findings

| source | as written | input that shows it | evidently intended | confidence | as-written member | corrected member |
|---|---|---|---|---|---|---|
| src/RosegardenDocument.cpp:823-829 | The element-count loop runs while `i < fileContents.length() - 1` with an unsigned length | The empty string: `0 - 1` wraps to 2^64 − 1, so the loop reads `fileContents[0]` and beyond | Scan only non-empty strings; the empty string has no elements | not executed | Documents.AsWrittenScanInBounds | Documents.CountElements |
