# Verified models of the media commands and the camera library

This project models the stateful parts of three pieces of the repository and proves, in
Dafny, what they keep.

* **Media players** (`cmds/stagefright`). `AudioPlayer` streams bytes out of borrowed source
  buffers while another thread seeks; `SimplePlayer` is driven by messages and moves codec
  buffers; `MyConvertingStreamSource` packs a byte stream into recycled buffers; `muxing` trims
  a sample sequence.
* **Camera data** (`camera`). `VendorTagDescriptor` and its parcel form, `CameraMetadata` (blob
  alignment, removal of protected entries, name look-up, growth and locking), and the text form
  of `CameraParameters` and `CameraParameters2`.
* **Screen recorder** (`cmds/screenrecord`). Line wrapping in `TextRenderer`, the overlay
  thread's monitor protocol, and the Winscope encoders.

Each file states the operations as functions on values, proves what every step and every run
keeps, and, where the source updates fields or buffers in place, gives a class or a loop method
whose `ensures` ties it to those functions. Concurrency is a sequence of atomic sections in any
order. Codecs, sources, sinks, listeners, extractors, clocks, allocations and vendor callbacks
are parameters or events: they answer anything that their interface allows.

| file | models |
|---|---|
| `Basics.dfy`, `SortedVectors.dfy` | shared types; libutils' sorted vectors, in which adding an equal key replaces |
| `AudioPlayer.dfy`, `SimplePlayer.dfy`, `ConvertingStream.dfy`, `Muxer.dfy` | `cmds/stagefright` |
| `VendorTags.dfy`, `TagNames.dfy`, `KeyDifference.dfy`, `CameraMetadata.dfy`, `MetadataBlob.dfy`, `ParameterText.dfy`, `CameraParameters.dfy` | `camera` |
| `TextWrap.dfy`, `Overlay.dfy`, `Winscope.dfy` | `cmds/screenrecord` |

`dafny verify dfyconfig.toml` checks the whole project.

## Properties the code does not have as one might expect

For each, the code is modelled as it is, and the exact condition is proved.

* `removePermissionEntries` sorts the removed tags as signed and the keys as unsigned. A removal
  that mixes a vendor tag with a built-in tag listed among the available keys leaves the built-in
  tag listed (`MixedTagsStayListed`); the result is right exactly otherwise (`RemovalExactlyWhen`).
* `renderAudio` counts whole frames only. The count stays exact if and only if the buffer is a
  whole number of frames or fills all the room (`RenderAudioExact`, `PartialFrameLosesCount`).
  Once more frames were played than counted, the unsigned difference offers more room than the
  track has (`RoomExceedsTrack`, `LostFrameOverfills`).
* A pending seek gets stuck: once a call has ended, or none is in flight, with the end of the
  stream known and the seek still pending, every call returns at once until the next `seekTo`
  (`StuckUntilSeek`, `NextCallServesSeek`). `StuckExactlyWhen` names the steps that lead there:
  above all, a seek during a source read that then fails (`SeekDuringFailedRead`). An end of the
  stream reported in the middle of a call does not lose a seek that the call still comes to
  (`LateEndServed`).
* `MyConvertingStreamSource` flushes its last, partly filled buffer only when a buffer comes back
  after the end. If the listener holds none by then, those bytes and the end of the stream never
  reach it (`FlushExactlyWhen`, `LastByteKept`).
* `drawWrappedString` steps over the terminator when the last glyph is wider than its line
  (`OverrunExactly`, `NarrowScreenOverruns`).
* In `CameraParameters2`, `set` removes one occurrence of a key only, so after a text with a
  repeated key `get` may return an older value (`OrderedSetGet`, `RepeatedKeyHidesSet`).
* The reverse index of a vendor descriptor survives a parcel exactly when, of the tags sharing a
  section and a name, the one announced last is the largest (`ParcelRoundTrip`); a descriptor and
  its copy can find different tags under one name (`CopyFindsOther`).
* `Overlay::stop` at any moment: it moves the state backwards exactly when it finds STOPPED, and a
  stop that comes before `start` or before a successful setup is overwritten, which moves the
  state backwards too (`PhaseGoesBackExactlyWhen`). The thread's next step honours it exactly when
  the thread is in its loop or its setup fails (`StopHonouredExactlyWhen`). Otherwise it is lost
  for good (`StopDuringSetupIsLost`, `StopDuringStart`), or the object stays in a state its
  destructor asserts against (`StopAfterTheEnd`, `StopWithoutStart`, although the header calls the
  latter harmless).
* The dropped-frame count misses the gap after a frame numbered zero (`DroppedPlusProcessed`,
  `GapAfterFrameZero`).
* `getTagFromName` never looks at the character between section and tag name; an empty tag name
  is refused (`BuiltInRoundTrip`, `VendorRoundTrip`).
* `CameraMetadata::writeToParcel` returns the status of its last write only, so it reports success
  whether or not the blob was written (`FailedBlobUnreported`).
* The Winscope comment gives the frame count 8 bytes; the code writes 4, and so does the model.

## Model

| member | source | states |
|---|---|---|
| `AudioPlayerModel.EveryInterleavingIsSafe` | cmds/stagefright/AudioPlayer.cpp:463-654 | in every interleaving of seeks, stream-end reports and the callback's locked and unlocked sections after a successful start: a pending seek carries the latest requested time; a consumed seek is the latest request and the next source read carries it; delivered bytes come from buffers read since that seek and continue those bytes in order; a call is short only after a failed read or at EOS; each loan is released or in exactly one slot |
| `AudioPlayerModel.NextKeeps` | cmds/stagefright/AudioPlayer.cpp:463-654 | every atomic step of every thread keeps the invariant behind that theorem |
| `AudioPlayerModel.ResetAfterAnyRun` | cmds/stagefright/AudioPlayer.cpp:323-368 | a reset after any run empties both slots and leaves every buffer ever borrowed released exactly once |
| `AudioPlayerModel.SectionsKeep` | cmds/stagefright/AudioPlayer.cpp:478-598 | the seek, read and copy sections each keep loans balanced and the slots consistent |
| `AudioPlayerModel.StartKeeps` | cmds/stagefright/AudioPlayer.cpp:84-281 | after a successful start the stashed buffer is the only loan; a device failure gives it back; a source that does not start leaves all as it was |
| `AudioPlayerModel.ResetReleasesEachLoanOnce` | cmds/stagefright/AudioPlayer.cpp:355-368 | a reset of any valid state ends with each loan released exactly once |
| `AudioPlayerModel.PendingThroughSections` | cmds/stagefright/AudioPlayer.cpp:478-598 | no section invents, loses or reorders a byte that is held, except that a seek drops them all |
| `AudioPlayerModel.StuckExactlyWhen` | cmds/stagefright/AudioPlayer.cpp:459-564 | of all steps of all threads, those after which no call is in flight, the stream has ended and a seek is pending: the sink's report between calls, a call that ends with the end already known, and a failed read that sets the end or finds it set |
| `AudioPlayerModel.StuckUntilSeek` | cmds/stagefright/AudioPlayer.cpp:463-476 | in every run from such a state without a new seek, no call reads, consumes or delivers anything |
| `AudioPlayerModel.NextCallServesSeek` | cmds/stagefright/AudioPlayer.cpp:463-500 | between calls, the next nonempty call consumes a pending seek exactly when the state is not that one |
| `AudioPlayerModel.LateEndServed` | cmds/stagefright/AudioPlayer.cpp:459-500 | a run in which the end is reported in the middle of a call and the pending seek is still consumed |
| `AudioPlayerModel.SeekDuringFailedRead` | cmds/stagefright/AudioPlayer.cpp:502-537 | a run that ends stuck: a call, a seek during its read, the read fails |
| `AudioPlayerModel.AudioPlayer.SeekTo` | cmds/stagefright/AudioPlayer.cpp:645-654 | the request replaces any pending one and withdraws EOS |
| `AudioPlayerModel.AudioPlayer.StartPlaying` | cmds/stagefright/AudioPlayer.cpp:84-281 | the whole state after each way out: the source does not start, a BAD_VALUE after the first read, a device failure, success |
| `AudioPlayerModel.AudioPlayer.ResetPlayer` | cmds/stagefright/AudioPlayer.cpp:323-400 | the whole state after a reset |
| `AudioPlayerModel.AudioPlayer.ConsumeSeek` | cmds/stagefright/AudioPlayer.cpp:478-500 | both slots are released and the requested time is handed to the read, exactly when a seek is pending |
| `AudioPlayerModel.AudioPlayer.ObtainBuffer` | cmds/stagefright/AudioPlayer.cpp:502-513 | the stashed buffer first, then one source read |
| `AudioPlayerModel.AudioPlayer.FinishRead` | cmds/stagefright/AudioPlayer.cpp:518-564 | EOS, final status and the forgotten seek time, which a newer seek protects |
| `AudioPlayerModel.AudioPlayer.CopyOut` | cmds/stagefright/AudioPlayer.cpp:578-598 | the bytes written into the sink's buffer are the front of the held range, and no other byte of it changes |
| `AudioPlayerModel.AudioPlayer.Refill` | cmds/stagefright/AudioPlayer.cpp:478-576 | one turn up to the copy: what is held afterwards is what was owed before; a failure is that of this turn's read |
| `AudioPlayerModel.AudioPlayer.FillBuffer` | cmds/stagefright/AudioPlayer.cpp:463-615 | the loop terminates; delivered bytes followed by the bytes still held are those held before followed by the payloads read; a short call means EOS at entry or a read that failed in this very call, whose status is the final one |
| `SimplePlayerModel.WorkOnlyWhileStarted` | cmds/stagefright/SimplePlayer.cpp:107-270 | after every run of messages, pending work messages of the current generation number one when STARTED and none otherwise, the extractor is held exactly in STOPPED and STARTED, and no live work message is delivered outside STARTED |
| `SimplePlayerModel.BuffersAfterAnyRun` | cmds/stagefright/SimplePlayer.cpp:418-650 | after every run, each codec buffer is with the codec or once in its list, output buffers are released in the order dequeued, with offset plus size conserved, and a whole-frame track never has more than `frameCount` frames unplayed |
| `SimplePlayerModel.HandleKeeps` | cmds/stagefright/SimplePlayer.cpp:107-270 | every message keeps the invariant of player and tracks |
| `SimplePlayerModel.EveryRunKeeps` | cmds/stagefright/SimplePlayer.cpp:107-270 | so does every run from a new player |
| `SimplePlayerModel.DeliveryKeeps` | cmds/stagefright/SimplePlayer.cpp:250-265 | a stale work message does nothing; a live one finds the player started with its extractor |
| `SimplePlayerModel.RenderAudioExact` | cmds/stagefright/SimplePlayer.cpp:602-650 | a partial write conserves offset plus size and stays within the room; the frame count stays exact if and only if the buffer is whole frames or fills the room; whatever remains means the track is full |
| `SimplePlayerModel.PartialFrameLosesCount` | cmds/stagefright/SimplePlayer.cpp:602-650 | three bytes of a four-byte frame are written and counted as no frame |
| `SimplePlayerModel.RoomExceedsTrack` | cmds/stagefright/SimplePlayer.cpp:610-618 | the room exceeds the track exactly when the frames played have passed the frames counted, short of the wrap-around |
| `SimplePlayerModel.LostFrameOverfills` | cmds/stagefright/SimplePlayer.cpp:602-650 | two partial frames played and not counted let a one-frame track take two frames at once |
| `SimplePlayerModel.RenderKeeps` | cmds/stagefright/SimplePlayer.cpp:518-566 | rendering a track keeps placement, order and audio accounting |
| `SimplePlayerModel.FeedKeeps` | cmds/stagefright/SimplePlayer.cpp:468-516 | feeding samples gives back only buffers that are held |
| `SimplePlayerModel.DrainInputsLoop` | cmds/stagefright/SimplePlayer.cpp:424-437 | the loop takes input buffers until the codec has none, in order |
| `SimplePlayerModel.DrainOutputsLoop` | cmds/stagefright/SimplePlayer.cpp:439-465 | the loop takes output buffers, goes on after format and buffer changes, and stops at the first refusal |
| `SimplePlayerModel.FeedLoop` | cmds/stagefright/SimplePlayer.cpp:468-516 | samples go to the first free buffer of their track until one has none |
| `SimplePlayerModel.RenderLoop` | cmds/stagefright/SimplePlayer.cpp:518-566 | early buffers stay, late ones are dropped, due ones are played, from the front |
| `SimplePlayerModel.RenderAudioCall` | cmds/stagefright/SimplePlayer.cpp:602-650 | the amount copied under unsigned 32-bit arithmetic on frames, for every position up to the whole frames the track was given |
| `SimplePlayerModel.SimplePlayer.OnMessageReceived` | cmds/stagefright/SimplePlayer.cpp:107-270 | the new state and the reply of every message in every state; the invariant is kept |
| `SimplePlayerModel.SimplePlayer.OnPrepare` | cmds/stagefright/SimplePlayer.cpp:272-376 | one track per stream that is opened, every buffer with its codec; or the error, and no extractor held |
| `SimplePlayerModel.SimplePlayer.OnStart` | cmds/stagefright/SimplePlayer.cpp:378-388 | a new generation with one message |
| `SimplePlayerModel.SimplePlayer.OnStop` | cmds/stagefright/SimplePlayer.cpp:390-396 | a new generation with none |
| `SimplePlayerModel.SimplePlayer.OnDoMoreStuff` | cmds/stagefright/SimplePlayer.cpp:418-569 | drain of every track, then feed, then render of every track, in that order, refining the step whose invariants are above |
| `ConvertingStreamModel.EveryInterleaving` | cmds/stagefright/stream.cpp:217-272 | in every interleaving of writer turns, buffer announcements and the end of the stream: each buffer index in exactly one place; bytes handed over, then the partial buffer, then what is still to place, are all bytes written, in order; every buffer handed over is full except a last one after the end; the listener can still read what it holds |
| `ConvertingStreamModel.ListenerSeesPrefix` | cmds/stagefright/stream.cpp:217-272 | from the initial state, what the listener got is a prefix of what was written, and all of it once the end was flushed |
| `ConvertingStreamModel.FlushExactlyWhen` | cmds/stagefright/stream.cpp:258-272 | after the writer's end, some run brings the end of the stream to the listener if and only if the listener holds a buffer |
| `ConvertingStreamModel.FlushDelivers` | cmds/stagefright/stream.cpp:258-272 | the first buffer that comes back after the end completes the delivery of all bytes written |
| `ConvertingStreamModel.NothingWithoutBuffers` | cmds/stagefright/stream.cpp:258-272 | without a held buffer no run changes anything after the end |
| `ConvertingStreamModel.LastByteKept` | cmds/stagefright/stream.cpp:217-272 | a run from the start whose only byte is never handed over |
| `ConvertingStreamModel.NextKeeps` | cmds/stagefright/stream.cpp:217-272 | every step keeps the invariant |
| `ConvertingStreamModel.TurnKeeps` | cmds/stagefright/stream.cpp:220-253 | so does a turn of the writer's loop |
| `ConvertingStreamModel.GiveBackKeeps` | cmds/stagefright/stream.cpp:258-272 | and a buffer coming back, with the flush after the end |
| `ConvertingStreamModel.TurnProgress` | cmds/stagefright/stream.cpp:220-253 | with nonempty buffers a turn places at least one byte |
| `ConvertingStreamModel.ConvertingStreamSource.WriteTurn` | cmds/stagefright/stream.cpp:220-253 | pick, copy in place, hand over when full |
| `ConvertingStreamModel.ConvertingStreamSource.OnBufferAvailable` | cmds/stagefright/stream.cpp:258-272 | the index is queued; after the end the partial buffer and an EOS go out |
| `ConvertingStreamModel.ConvertingStreamSource.WriteData` | cmds/stagefright/stream.cpp:217-256 | returns the full size, or is still waiting for a buffer with exactly a prefix of the data placed |
| `Muxer.TrimmedOutput` | cmds/stagefright/muxer.cpp:164-215 | for nondecreasing times with trimming on, the samples written are exactly the contiguous run from the first sync sample in (start, end] to the last sample not after end; times start at 0, keep the spacing and stay below end minus start; with no such sync sample nothing is written |
| `Muxer.OnExactlyWhen` | cmds/stagefright/muxer.cpp:189-205 | for times in any order, copying is on exactly when a sync sample opened the window and no later sample was past its end |
| `Muxer.NoTrimCopiesAll` | cmds/stagefright/muxer.cpp:207-211 | without trimming every sample is written with its own time |
| `Muxer.Mux` | cmds/stagefright/muxer.cpp:164-215 | the loop writes what the automaton makes of the mapped tracks' samples |
| `Muxer.Copy` | cmds/stagefright/muxer.cpp:179-213 | one sample of a mapped track |
| `Muxer.CorrectStart` | cmds/stagefright/muxer.cpp:131-137 | the start falls back to zero exactly when a selected track is shorter than it, for any durations |
| `VendorTags.ParcelRoundTrip` | camera/VendorTagDescriptor.cpp:111-293 | the parcel is read back exactly when tags are distinct and strings nonempty; then names, types, sections and section indices are restored always, and the reverse index exactly when, of the tags announced under one section and name, the last is the largest |
| `VendorTags.RebuiltReverse` | camera/VendorTagDescriptor.cpp:205-214 | the condition of the reverse index on the announced order, by itself |
| `VendorTags.LookupFindsLast` | camera/VendorTagDescriptor.cpp:576-592 | a built descriptor finds the tag announced last under a section and name |
| `VendorTags.CopyFindsLargest` | camera/VendorTagDescriptor.cpp:205-214 | its copy finds the largest such tag |
| `VendorTags.CopyFindsOther` | camera/VendorTagDescriptor.cpp:111-293 | two tags under one name, the larger announced first: descriptor and copy find different tags |
| `VendorTags.LargestWinsExactlyWhen` | camera/VendorTagDescriptor.cpp:299-316 | every look-up finds the largest tag exactly when the largest was announced last |
| `VendorTags.BuiltSurvives` | camera/VendorTagDescriptor.cpp:111-293 | with unique pairs the whole descriptor survives, whatever follows in the parcel |
| `VendorTags.BuiltCacheRoundTrip` | camera/VendorTagDescriptor.cpp:352-412 | so does a whole vendor cache of such descriptors, whatever the order of its map |
| `VendorTags.CacheRoundTrip` | camera/VendorTagDescriptor.cpp:352-412 | the lifting, for any contents that survive one by one |
| `VendorTags.ReadWritten` | camera/VendorTagDescriptor.cpp:111-293 | reading what was written from any consistent descriptor gives its forward maps back if its strings are nonempty, and otherwise fails |
| `VendorTags.ReadMiscounted` | camera/VendorTagDescriptor.cpp:135-180 | a descriptor whose tag count exceeds its tags (repeated tags) is refused by the reader |
| `VendorTags.BuiltSection` | camera/VendorTagDescriptor.cpp:235-241 | although sorted insertion shifts indices, each tag's index points at its own section |
| `VendorTags.BuiltAnswers` | camera/VendorTagDescriptor.cpp:235-257 | the getters repeat what the operations said of each tag, and deny every other tag |
| `VendorTags.LookupSound` | camera/VendorTagDescriptor.cpp:299-316 | a look-up finds a tag with that section and name, or there is none |
| `VendorTags.LookupInverse` | camera/VendorTagDescriptor.cpp:299-316 | it inverts the getters on every tag if and only if no two tags share section and name |
| `VendorTags.VendorTagDescriptor.CreateDescriptorFromOps` | camera/VendorTagDescriptor.cpp:517-596 | refuses negative counts, tags outside the vendor range, missing strings and bad types; otherwise builds the descriptor |
| `VendorTags.VendorTagDescriptor.Collect` | camera/VendorTagDescriptor.cpp:543-574 | the first loop: the tables, or the first bad answer |
| `VendorTags.VendorTagDescriptor.IndexAll` | camera/VendorTagDescriptor.cpp:576-592 | the second loop: indices into the finished section table, and the reverse index |
| `VendorTags.VendorTagDescriptor.WriteToParcel` | camera/VendorTagDescriptor.cpp:259-293 | the items written, in order |
| `VendorTags.VendorTagDescriptor.ReadFromParcel` | camera/VendorTagDescriptor.cpp:111-218 | the descriptor read, or the error of the first failing item |
| `TagNames.BuiltInRoundTrip` | camera/CameraMetadata.cpp:804-880 | section, any separator and name of a built-in tag lead back to it exactly when the name is nonempty, no longer section begins the text, no earlier section has the same name, and the tag is the first of its name there |
| `TagNames.VendorRoundTrip` | camera/CameraMetadata.cpp:804-880 | the same for vendor tags, with the descriptor's own look-up |
| `TagNames.VendorRoundTripUnique` | camera/CameraMetadata.cpp:868-877 | with unique vendor pairs only the conditions on the sections remain |
| `TagNames.BestIsLongest` | camera/CameraMetadata.cpp:804-833 | the scan finds the longest section that begins the name, the first of its length, or there is none |
| `TagNames.FindSection` | camera/CameraMetadata.cpp:804-833 | the loop over best-match variables does that |
| `TagNames.BuiltInResult` | camera/CameraMetadata.cpp:849-867 | within a built-in section, the first tag of that name or none |
| `TagNames.GetTagFromName` | camera/CameraMetadata.cpp:789-881 | the whole look-up with its error codes |
| `KeyDifference.FilterExactlyWhen` | camera/CameraMetadata.cpp:479-492 | for all keys and removed tags, the pass subtracts occurrences if and only if no vendor tag was removed or no removed built-in tag is among the keys |
| `KeyDifference.FilterLeaves` | camera/CameraMetadata.cpp:479-492 | the result is sorted, and how often each key is left in it, in every case |
| `KeyDifference.DifferenceTakesPeaks` | camera/CameraMetadata.cpp:489-491 | `std::set_difference` on a sorted first and an arbitrary second operand takes away exactly the running maxima of the second |
| `KeyDifference.SignedPeaks` | camera/CameraMetadata.cpp:482-486 | the running maxima of a list sorted as signed: its vendor tags if it has any, else all of it |
| `KeyDifference.MixedTagsStayListed` | camera/CameraMetadata.cpp:479-492 | a built-in tag removed together with a vendor tag is still listed |
| `CameraMetadataModel.RemovalExactlyWhen` | camera/CameraMetadata.cpp:466-496 | the listed tags are gone, the removed list holds each present one once, other entries are unchanged, and the available keys become the sorted old keys without the removed ones exactly when the removal is unmixed |
| `CameraMetadataModel.CameraMetadata.RemovePermissionEntries` | camera/CameraMetadata.cpp:426-497 | that result on an unlocked object when the update finds room, otherwise unfiltered keys and still success; the removed tags are returned sorted as signed when the keys entry is there; a locked object is unchanged |
| `CameraMetadataModel.CameraMetadata.EraseListed` | camera/CameraMetadata.cpp:466-476 | the erasing loop, and its failure at the first present tag of a locked object |
| `CameraMetadataModel.CameraMetadata.FilterKeys` | camera/CameraMetadata.cpp:478-494 | the removed tags are sorted and the keys entry is replaced by the filtered keys or, without room, left |
| `CameraMetadataModel.ResizeMakesRoom` | camera/CameraMetadata.cpp:503-541 | growth succeeds exactly when there is room or memory, keeps every entry, leaves the room asked for, never shrinks, and on failure changes nothing |
| `CameraMetadataModel.UpdateSucceeds` | camera/CameraMetadata.cpp:307-363 | an update succeeds exactly when the tag is known, the data lies outside the buffer and there is room or memory; it changes that one entry only, and a refusal, with its status, changes nothing |
| `CameraMetadataModel.CameraMetadata.ResizeIfNeeded` | camera/CameraMetadata.cpp:503-541 | the arithmetic of capacities refines that |
| `CameraMetadataModel.CameraMetadata.UpdateEntry` | camera/CameraMetadata.cpp:307-363 | as above, on the object; refused while locked |
| `CameraMetadataModel.CameraMetadata.Erase` | camera/CameraMetadata.cpp:397-424 | the one entry goes, if there is such; an error without a buffer; refused while locked |
| `CameraMetadataModel.CameraMetadata.GetAndLock` | camera/CameraMetadata.cpp:87-90 | the lock is set and the buffer's address given out |
| `CameraMetadataModel.CameraMetadata.Unlock` | camera/CameraMetadata.cpp:92-104 | only that address opens the lock |
| `CameraMetadataModel.CameraMetadata.Release` | camera/CameraMetadata.cpp:106-114 | the buffer changes hands, or nothing happens while locked |
| `CameraMetadataModel.CameraMetadata.Clear` | camera/CameraMetadata.cpp:116-125 | the buffer is freed, or nothing happens while locked |
| `CameraMetadataModel.CameraMetadata.Acquire` | camera/CameraMetadata.cpp:127-138 | the old buffer is freed and the new one held, or nothing happens while locked |
| `MetadataBlob.Aligned` | camera/CameraMetadata.cpp:29-30 | for every word size, address and power of two, on the bits: the aligned start is a multiple, less than one alignment above the address, across wrap-around |
| `MetadataBlob.AlignedInside` | camera/CameraMetadata.cpp:668-711 | the aligned metadata ends inside the blob |
| `MetadataBlob.BlobRoundTrip` | camera/CameraMetadata.cpp:543-727 | for every blob address and old contents the reader recovers the bytes, exactly when there are any, the size fits an int32 and they validate |
| `MetadataBlob.NullRoundTrip` | camera/CameraMetadata.cpp:565-569 | null metadata is size 0 and comes back null |
| `MetadataBlob.FailedBlobUnreported` | camera/CameraMetadata.cpp:671-726 | success is reported exactly when size and offset were written, whatever became of the blob; a parcel that ends there is refused by the reader |
| `MetadataBlob.SizeSurvives` | camera/CameraMetadata.cpp:555-562 | of all 64-bit sizes, the casts to int32 and back keep exactly those below 2^31 and those from 2^64 - 2^31 |
| `MetadataBlob.CopyAligned` | camera/CameraMetadata.cpp:706-711 | the bytes lie at an aligned address and the padding keeps its contents |
| `MetadataBlob.WriteToParcel` | camera/CameraMetadata.cpp:634-727 | the items in the parcel and the status returned, whichever of the three writes fail |
| `ParameterText.PrintLosesNothing` | camera/CameraParameters.cpp:186-237 | parsing undoes printing exactly when no key has '=' and no value ';' |
| `ParameterText.ParsedIsPrintable` | camera/CameraParameters.cpp:206-237 | whatever the text, what is parsed is such |
| `ParameterText.FindItem` | camera/CameraParameters.cpp:213-236 | one turn of the parser's loop on its moving pointers |
| `ParameterText.StrtolPrinted` | camera/CameraParameters.cpp:298-321 | every int printed and followed by no digit is read back, with its end |
| `ParameterText.StrtolPrintedAnyBase` | camera/CameraParameters.cpp:277-283 | also with base 0, where a leading zero would mean octal |
| `ParameterText.PrintIntFits` | camera/CameraParameters.cpp:255-260 | no printed int is cut off by the buffer it is formatted in |
| `ParameterText.ParsePrintedPair` | camera/CameraParameters.cpp:298-321 | a printed pair is read back, with the place where it ends |
| `ParameterText.SizesRoundTrip` | camera/CameraParameters.cpp:323-346 | a printed list of sizes of any length is read back exactly |
| `ParameterText.ParseSizesList` | camera/CameraParameters.cpp:323-346 | the loop terminates on every string, appends the list, and stops at the first malformed size |
| `CameraParametersModel.ReadPrintRead` | camera/CameraParameters.cpp:186-237 | for every string, in both variants, unflatten of flatten of unflatten is unflatten |
| `CameraParametersModel.SortedRoundTrip` | camera/CameraParameters.cpp:186-237 | sorted contents survive their text exactly when printable |
| `CameraParametersModel.SortedRunSurvives` | camera/CameraParameters.cpp:186-296 | any contents reached by set, remove and unflatten survive their text |
| `CameraParametersModel.OrderedRunSurvives` | camera/CameraParameters2.cpp:38-109 | likewise in the ordered variant, in order |
| `CameraParametersModel.SortedSetGet` | camera/CameraParameters.cpp:239-275 | get after set, for the key and for all others, with the empty value read as absent |
| `CameraParametersModel.OrderedSetGet` | camera/CameraParameters2.cpp:93-133 | get after set returns the value exactly when the key occurred at most once or its second value was the same; other keys are untouched |
| `CameraParametersModel.RepeatedKeyHidesSet` | camera/CameraParameters2.cpp:60-133 | a parsed text with a repeated key makes a later set invisible |
| `CameraParametersModel.OrderedRunNoRepeats` | camera/CameraParameters2.cpp:60-109 | without repeated keys in the parsed texts none ever appears |
| `CameraParametersModel.SetComesLast` | camera/CameraParameters2.cpp:150-178 | a key that occurred at most once compares after every other key once set, and the others keep their order |
| `CameraParametersModel.IntRoundTrip` | camera/CameraParameters.cpp:255-283 | every int set under a valid key is read back, in both variants |
| `CameraParametersModel.PairRoundTrip` | camera/CameraParameters.cpp:298-362 | every pair of ints set as a size is read back, in both variants |
| `CameraParametersModel.FlattenPairs` | camera/CameraParameters.cpp:186-204 | the printing loop, with separators between pairs only |
| `CameraParametersModel.CameraParameters.Unflatten` | camera/CameraParameters.cpp:206-237 | the parsing loop into the sorted map |
| `CameraParametersModel.CameraParameters.SetValue` | camera/CameraParameters.cpp:239-253 | keys or values with separators are ignored |
| `CameraParametersModel.CameraParameters.SetInt` | camera/CameraParameters.cpp:255-260 | the printed int is stored, and read back under a valid key |
| `CameraParametersModel.CameraParameters2.Unflatten` | camera/CameraParameters2.cpp:60-91 | the parsing loop, which keeps order and repetitions |
| `CameraParametersModel.CameraParameters2.RemoveItem` | camera/CameraParameters2.cpp:180-184 | the first pair with that key goes |
| `CameraParametersModel.CameraParameters2.SetValue` | camera/CameraParameters2.cpp:93-109 | one old pair goes, the new one comes last |
| `TextWrap.WrapRejoins` | cmds/screenrecord/TextRenderer.cpp:284-313 | for every string and width, the lines and the white space skipped between them rejoin to the string |
| `TextWrap.WrapFits` | cmds/screenrecord/TextRenderer.cpp:284-360 | when every line is as wide as every glyph, every line fits and the scan stays in the string |
| `TextWrap.OverrunExactly` | cmds/screenrecord/TextRenderer.cpp:318-360 | for every string, it is read past its terminator if and only if its last line starts at its last glyph and is too narrow for it; for one not ending in two white-space characters, if and only if it must be broken, its last glyph is wider than its line, and that glyph is not a space that gets skipped |
| `TextWrap.LastSpaceSkipped` | cmds/screenrecord/TextRenderer.cpp:296-309 | a single trailing white-space character is skipped at a break and never leads past the terminator |
| `TextWrap.OverrunNeedsWideGlyph` | cmds/screenrecord/TextRenderer.cpp:318-360 | the necessary half, for every string |
| `TextWrap.BrokenLineFits` | cmds/screenrecord/TextRenderer.cpp:318-360 | a line broken off fits when its first glyph does |
| `TextWrap.NarrowScreenOverruns` | cmds/screenrecord/TextRenderer.cpp:343-347 | one wide glyph on a narrow line steps over the terminator |
| `TextWrap.WideScreenWraps` | cmds/screenrecord/TextRenderer.cpp:253-316 | on a screen whose indented line holds every glyph, drawing terminates, every line fits and the pieces rejoin |
| `TextWrap.BitmapFontForward` | cmds/screenrecord/TextRenderer.cpp:160-179 | every glyph advance is positive and bounded by the widest |
| `TextWrap.BreakString` | cmds/screenrecord/TextRenderer.cpp:318-360 | the two scans find the last white space in the longest prefix that is narrow enough, or that prefix's end |
| `TextWrap.OneLine` | cmds/screenrecord/TextRenderer.cpp:288-311 | cutting a line in the copied text and restoring the character leaves the copy as it was |
| `TextWrap.WrapLoop` | cmds/screenrecord/TextRenderer.cpp:284-313 | the loop on the copy draws the pieces of the wrap |
| `TextWrap.DrawWrappedString` | cmds/screenrecord/TextRenderer.cpp:253-316 | the lines drawn, and y advanced by their number times the line height |
| `OverlayModel.NoLostWakeUp` | cmds/screenrecord/Overlay.cpp:57-131 | after every interleaving the thread sleeps unsignalled only with no frame pending and no stop requested, `start` only while the thread is coming up, and resources are held exactly while the thread lives |
| `OverlayModel.PhaseAdvances` | cmds/screenrecord/Overlay.h:111-113 | between any two moments of a run with one stop after a successful start, the state never moves backwards |
| `OverlayModel.NextKeeps` | cmds/screenrecord/Overlay.cpp:57-131 | every step keeps the invariant and never moves the state backwards |
| `OverlayModel.StartAssertion` | cmds/screenrecord/Overlay.cpp:75-84 | the assertion in `start` holds in every run |
| `OverlayModel.StopEndsWorker` | cmds/screenrecord/Overlay.cpp:91-131 | after `stop` the thread is signalled, and its next wake-up serves a pending frame, releases everything and ends |
| `OverlayModel.PhaseGoesBackExactlyWhen` | cmds/screenrecord/Overlay.cpp:57-131 | after every run with stops at any time, the steps that move the state backwards: a stop in STOPPED, `start` after a stop, and a setup that succeeds after a stop |
| `OverlayModel.FreeNoLostWakeUp` | cmds/screenrecord/Overlay.cpp:57-131 | also in those runs the thread sleeps unsignalled only while RUNNING with no frame pending |
| `OverlayModel.StopHonouredExactlyWhen` | cmds/screenrecord/Overlay.cpp:91-131 | the thread's next step after a stop makes the object destructible exactly when the thread is in its loop or its setup fails |
| `OverlayModel.StopDuringSetupIsLost` | cmds/screenrecord/Overlay.cpp:91-114 | a stop before a setup that succeeds is lost in every run until another stop |
| `OverlayModel.StopWithoutThread` | cmds/screenrecord/Overlay.cpp:91-97 | a stop that finds no thread leaves STOPPING in every run that does not start one |
| `OverlayModel.StopDuringStart` | cmds/screenrecord/Overlay.cpp:75-125 | two runs with a stop while `start` waits: RUNNING and asleep, with success reported, or a failure |
| `OverlayModel.StopAfterTheEnd` | cmds/screenrecord/Overlay.cpp:99-110 | a stop after a failed setup leaves STOPPING in every run |
| `OverlayModel.StopWithoutStart` | cmds/screenrecord/Overlay.h:62-75 | a stop without `start` leaves an object that fails its destructor's assertion |
| `OverlayModel.DroppedAfterAnyRun` | cmds/screenrecord/Overlay.cpp:204-209 | after any interleaving with increasing frame numbers from 0 up, dropped plus processed is last minus first plus one exactly if the first is positive, alone, or followed by one |
| `OverlayModel.DroppedPlusProcessed` | cmds/screenrecord/Overlay.cpp:204-209 | the same of any sequence of frames |
| `OverlayModel.GapAfterFrameZero` | cmds/screenrecord/Overlay.cpp:204-209 | frames 0 and 5: nothing is counted as dropped |
| `OverlayModel.Overlay.StartThread` | cmds/screenrecord/Overlay.cpp:57-77 | up to the wait on the start condition |
| `OverlayModel.Overlay.AwaitStart` | cmds/screenrecord/Overlay.cpp:76-89 | after the wait: again, or the thread's result |
| `OverlayModel.Overlay.SetUp` | cmds/screenrecord/Overlay.cpp:99-116 | the thread comes up or gives up, and wakes `start` |
| `OverlayModel.Overlay.LoopTurn` | cmds/screenrecord/Overlay.cpp:116-131 | a turn after the wait, and the end of the thread |
| `OverlayModel.Overlay.ProcessFrame` | cmds/screenrecord/Overlay.cpp:198-209 | the frame accounting |
| `OverlayModel.Overlay.OnFrameAvailable` | cmds/screenrecord/Overlay.cpp:280-285 | a pending frame and a signal |
| `OverlayModel.Overlay.StopThread` | cmds/screenrecord/Overlay.cpp:91-97 | STOPPING and a signal, at any moment |
| `Winscope.LegacyRoundTrip` | cmds/screenrecord/screenrecord.cpp:383-409 | a little-endian reader recovers the count and every adjusted time, negative ones included |
| `Winscope.V2RoundTrip` | cmds/screenrecord/screenrecord.cpp:429-478 | and of the second form also the version and the signed offset |
| `Winscope.Signed64RoundTrip` | cmds/screenrecord/screenrecord.cpp:362-369 | a signed 64-bit value survives byte by byte |
| `Winscope.WriteValueLE` | cmds/screenrecord/screenrecord.cpp:362-369 | the bytes written, and no other |
| `Winscope.WriteTimes` | cmds/screenrecord/screenrecord.cpp:397-401 | the loop over the times fills the buffer to its last byte |
| `Winscope.WriteLegacy` | cmds/screenrecord/screenrecord.cpp:383-409 | the allocated buffer is exactly the encoding; the terminator of `strcpy` is overwritten |
| `Winscope.WriteV2` | cmds/screenrecord/screenrecord.cpp:429-478 | likewise for the second form |

## Left out

- The position, latency and timestamp bookkeeping of `fillBuffer`, and the set-up of `AudioSink` and `AudioTrack`: no property above depends on it.
- `AudioPlayer::pause`, `resume`, playback rate and the offload tear-down: calls into code that is not part of this model.
- Ownership after a `start` that fails with `BAD_VALUE`: the source keeps the stashed buffer there, so ownership is stated from a successful start.
- The reply of `kWhatSetDataSource` on success, which the source leaves unassigned.
- The bytes that `SimplePlayer` copies into codec buffers, the codec-specific data buffers (dequeued and queued again at once), and the refresh of the output buffer table.
- Machine wrap-around of the generation counter, of the dropped-frame counter and of size sums; the conversion of command-line milliseconds in `muxer.cpp`.
- A 32-bit `long` in `strtol`: it is taken to be 64 bits wide, clamped at its ends, and converted to int.
- NUL characters inside strings, `setFloat`/`getFloat`, format enumerations, `dump` functions.
- The pixel table of the font and all drawing; the conversion of a negative line width to an unsigned number; rounding of `float` (widths are reals).
- TextWrap.OverrunExactly: for strings that end in two or more white-space characters the condition names the start of the last line and not the text alone, because which of those characters is skipped depends on where all earlier breaks fall.
- Parcels with a section index outside the section table, on which the source indexes out of range; the model reads an empty name there.
- The untyped bytes of a binder parcel: parcels are sequences of typed items, so what a reader makes of a blob that is missing in front of further items is not modelled.
- The framing that `writeParcelable` puts around each descriptor of a cache, which is not in the repository; the cache theorem needs only that it reads back.
- `VendorTagDescriptor::copyFrom`, the global descriptor and cache, and their C call-backs: copies and guarded globals.
- `CameraMetadata` buffers with repeated tags, entry order, types other than 32-bit integers, `append`, `sort` and `swap`; the C functions behind them are not in the repository and are given a map-like contract.
- The numeric tags and names of the built-in tables, and the null-pointer arguments of `removePermissionEntries` and `getTagFromName`.
- `CameraMetadata::readFromParcel` on an object: the lock test and the replacement of the buffer around the modelled reader.
- Binder proxies and stubs, flat parcelables, output and session configurations, command-line handling and the other test drivers: plumbing that would only add easy members.
