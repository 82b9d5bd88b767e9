# InputVCR record/playback timeline engine

InputVCR records a game's input (buttons, axes, keys, mouse) and custom
"synced properties" into a timeline of frames, and plays them back so that
the game queries the VCR instead of the live input. This project models the
engine in Dafny, in six parts that mirror the repository's files:

- `timeline.dfy` (module `Timeline`) is the current frame store, `Runtime/Scripts/Recording.cs`.
  A `Recording` class holds a `seq<Frame>`. Each frame has a time, a list of `InputState`
  entries keyed by `inputId` and a list of `FrameProperty` entries keyed by `name`.
  Frame times only grow (`AddFrame`), the list can be cut back (`ClearFrames`), and
  `GetFrameForTime` maps a time to the last frame at or before it.
- `recorder.dfy` (module `Recorder`) is the current recorder component, `Runtime/Scripts/InputVCRRecorder.cs`.
  It is a class with the mode (`Passthru`, `Record`, `Playback`), a pause flag, a cursor
  (`RecordingState`: `Time`, `FrameIdx`), the property queue and three latched dictionaries
  (this frame's inputs, last frame's inputs, this frame's properties). The per-tick step
  `Update` either appends and fills a frame, or advances the cursor and sweeps every
  frame it passed into the latched dictionaries. The edge queries (`GetButtonDown`,
  `GetButtonUp`, ...) compare the two input snapshots.
- `early_recorder.dfy` (module `EarlyRecorder`) is the earlier copy of that component,
  `Runtime/Scripts/InputVCR.cs`, modelled as written. Its cursor is not clamped, its
  `FrameIdx` starts at 0 and is incremented before the append, and its `Record` branch
  condition differs. It stores its frames in a type `Record` (Runtime/Scripts/InputVCR.cs:101,
  106, 130 and 161, with `Record.InputState` and `Record.FrameProperty`) that none of the
  repository's files defines. The model assumes that `Record` has the API and behaviour of
  the `Recording` class of `Runtime/Scripts/Recording.cs`: the time check of `AddFrame`, the
  range test of `GetFrame`, and `GetFrameForTime`. So the earlier copy uses `Timeline.Recording`.
- `latch.dfy` (module `Latch`) is the playback sweep shared by both recorders. It holds
  the overlay of a range of frames onto a dictionary and the held/rising/falling predicates.
- `rate_recording.dfy` (module `RateRecording`) and `legacy_recording.dfy` (module
  `LegacyRecording`) are the two frame-rate-indexed recordings, `Scripts/Recording.cs` and
  `Recording.cs`. In both, a time maps to frame time·rate truncated toward zero (the `(int)` cast); writes extend the frame list
  (`CheckFrame`) and out-of-range reads give null or empty.
- `legacy_vcr.dfy` (module `LegacyVCR`) is the legacy component, `InputVCR.cs`. It has four
  modes (`Pause` included) and dictionaries that are objects (`InputTable`), because playback
  makes the two dictionaries the same object. Its playback sweep collects only inputs that
  differ from the latched value. Its record loop catches up frame by frame with real time.

`common.dfy` (module `Common`) holds `Option`, `Result`, `Status` and `Fault`, the live-input
oracle `LiveInput`, and a `Buffer` class for the caller-owned lists that `GetInputs` fills.
It also holds `Clamp` (`Mathf.Clamp`) and `Truncate` (the C# `(int)` cast of a float).
`keyed.dfy` (module `Keyed`) holds the first-match upsert and lookup over a list keyed by a
name. Every `AddInput`/`AddProperty` in the repository shares it, except
`RateRecording.Recording.AddProperty`, which writes a dictionary entry (`SetProperty`) as
`Scripts/Recording.cs` does. It also holds the overlay of a list onto a dictionary.

An exception in the C# code is a `Failed(fault)` status or a `Failure(fault)` result. Any
state already changed before the throw stays changed in the model, because it stays changed
in the code. For example, `AdvanceByTime` adds the delta to `Time` before `GetFrameForTime`
throws on an empty recording. Live input (`Input.*`) is the `LiveInput` oracle,
`Time.deltaTime` is a parameter, and `Time.time` is a field of the legacy `Tick` parameter.
The `finishedPlayback` event is a ghost counter of its invocations. Times are `real`.

Three behaviours of the code are worth stating explicitly:

- **Skipped pulses.** The sweep overlays the crossed frames in order and keeps only the last
  sample of each id. A pulse that starts and ends inside one sweep is merged away:
  `Latch.SweepMergesPulse` proves that no rising edge is seen.
- **Forwarded edges.** In the current recorder, `GetButtonDown`/`GetButtonUp` outside
  playback forward to the live key-down/key-up queries, not to the button queries (as the
  code does).
- **The legacy sweep.** The legacy sweep compares each frame with the latched value from
  before the tick, so a press and release inside one sweep is latched as the press
  (`LegacyVCR.BriefPressIsLatched`).

## Model

| member | source | states |
|---|---|---|
| Common.Buffer.constructor | Runtime/Scripts/InputVCRRecorder.cs:239-240 | a new cache list is empty |
| Common.Buffer.Clear | Runtime/Scripts/InputVCRRecorder.cs:263 | clearing the cache list leaves it empty |
| Common.Buffer.AddRange | Runtime/Scripts/Recording.cs:238-240 | AddRange keeps the list's existing contents and appends the given entries after them, in order |
| Common.Clamp | Runtime/Scripts/InputVCRRecorder.cs:474 | Mathf.Clamp: the result lies in [min, max] when min ≤ max, and a value already inside is returned unchanged |
| Common.Truncate | Scripts/Recording.cs:180-183 | the C# float-to-int cast rounds toward zero: r ≤ x < r+1 for x ≥ 0 and r−1 < x ≤ r for x < 0 |
| Keyed.IndexOf | Runtime/Scripts/Recording.cs:152-158 | the search of AddInput: the first index whose key matches, every earlier entry has another key, and the list length when none matches |
| Keyed.FirstIndexOf | Runtime/Scripts/Recording.cs:152-158 | the search loop of AddInput/AddProperty returns exactly the first matching index (or the length) |
| Keyed.LastIndexOf | Runtime/Scripts/InputVCRRecorder.cs:265-269 | the last index whose key matches, every later entry has another key, or −1 |
| Keyed.FindHasKey | Runtime/Scripts/Recording.cs:218-226 | a lookup finds an entry exactly when some entry has the key, and the entry it finds has that key |
| Keyed.FindIsFindLastWhenUnique | Runtime/Scripts/Recording.cs:149-162 | on a list with unique keys the first and the last match coincide |
| Keyed.UpsertFindsNew | Runtime/Scripts/Recording.cs:149-162 | after the upsert the lookup of the written key returns the written entry |
| Keyed.UpsertFindsOthers | Runtime/Scripts/Recording.cs:149-162 | the upsert does not change the lookup of any other key |
| Keyed.UpsertLength | Runtime/Scripts/Recording.cs:152-161 | overwrite keeps the length when the key is present; otherwise the entry is appended at the end |
| Keyed.UpsertKeepsUnique | Runtime/Scripts/Recording.cs:149-162 | an upsert keeps the keys of the list unique |
| Keyed.UpsertTwice | Runtime/Scripts/Recording.cs:149-162 | two upserts with the same key equal the second alone |
| Keyed.UpsertAllAppend | Runtime/Scripts/InputVCRRecorder.cs:283-305 | upserting a + b equals upserting a, then b (the successive sample loops of one tick) |
| Keyed.UpsertAllKeepsUnique | Runtime/Scripts/InputVCRRecorder.cs:283-310 | a series of upserts keeps the keys unique |
| Keyed.UpsertAllFinds | Runtime/Scripts/InputVCRRecorder.cs:283-310 | after a series of upserts a key finds its last write, or what the list held before when it was not written |
| Keyed.OverlayIsLastWrite | Runtime/Scripts/InputVCRRecorder.cs:265-269 | the dictionary assignment loop: a key is present iff it was written or already present; it maps to its last write, otherwise to its old value |
| Keyed.OverlayAppend | Runtime/Scripts/InputVCRRecorder.cs:261-277 | overlaying a then b equals overlaying a + b (frame-by-frame sweep == one sweep) |
| Keyed.OverlayPrefixStep | Runtime/Scripts/InputVCRRecorder.cs:265-269 | one more pass of the assignment loop: overlaying the first j+1 entries equals overlaying the first j and then writing entry j under its key |
| Timeline.ButtonInput | Runtime/Scripts/Recording.cs:55-59 | the button constructor keeps the id and state and sets the axis value to 0 |
| Timeline.AxisInput | Runtime/Scripts/Recording.cs:61-65 | the axis constructor keeps the id and value and sets the button state to false |
| Timeline.FirstLaterFrom | Runtime/Scripts/Recording.cs:109-112 | the scan returns the first index from i whose time is later than t; all frames between have time ≤ t |
| Timeline.FrameForTime | Runtime/Scripts/Recording.cs:105-115 | on a non-empty recording the frame for a time is an index in [0, FrameCount) |
| Timeline.Recording.constructor | Runtime/Scripts/Recording.cs:84-85 | a new recording has no frames |
| Timeline.Recording.Copy | Runtime/Scripts/Recording.cs:97-102 | copying null gives no frames; otherwise the copy has the same frame sequence |
| Timeline.Recording.GetFrameForTime | Runtime/Scripts/Recording.cs:105-115 | fails with EmptyRecording on an empty recording, else returns FrameForTime |
| Timeline.Recording.ClearFrames | Runtime/Scripts/Recording.cs:117-122 | the frames become Truncated(old frames, k): empty for k ≤ 0, the first k frames for 0 < k < count, unchanged otherwise |
| Timeline.Recording.AddFrame | Runtime/Scripts/Recording.cs:129-137 | succeeds iff the recording is empty or the time is after Length; on success it appends one empty frame at that time, and on failure frames are unchanged |
| Timeline.Recording.GetFrame | Runtime/Scripts/Recording.cs:279-283 | succeeds iff 0 ≤ index < count, returning that frame; otherwise FrameOutOfRange |
| Timeline.Recording.AddInput | Runtime/Scripts/Recording.cs:149-162 | fails outside the recording, leaving frames unchanged; otherwise only frame f changes, by the upsert of the state |
| Timeline.Recording.AddProperty | Runtime/Scripts/Recording.cs:192-204 | the same contract for properties, keyed by name |
| Timeline.Recording.AddNamedProperty | Runtime/Scripts/Recording.cs:177 | the same contract for a property built from a name and a value |
| Timeline.Recording.GetInput | Runtime/Scripts/Recording.cs:218-227 | fails outside the recording; returns the first entry with the id, or the default state (empty id, false, 0) when absent |
| Timeline.Recording.GetInputs | Runtime/Scripts/Recording.cs:238-240 | fails outside the recording leaving the buffer alone; otherwise appends the frame's states after the buffer's contents |
| Timeline.Recording.GetProperty | Runtime/Scripts/Recording.cs:254-264 | fails outside the recording; returns the first property's value with the name, or "" when absent |
| Timeline.Recording.GetProperties | Runtime/Scripts/Recording.cs:271-273 | fails outside the recording; otherwise appends the frame's properties after the buffer's contents |
| Timeline.FrameForTimeIsLastAtOrBefore | Runtime/Scripts/Recording.cs:105-115 | on increasing times the frame for t is the last one with time ≤ t: all later frames are after t |
| Timeline.FrameForTimeUnique | Runtime/Scripts/Recording.cs:109-114 | any index with that characterisation is the frame for t |
| Timeline.FrameForTimeBeforeSecondFrame | Runtime/Scripts/Recording.cs:109-111 | a time before frame 1 (or a single frame) gives frame 0 |
| Timeline.FrameForTimeFreezesAtEnd | Runtime/Scripts/Recording.cs:114 | a time at or after Length gives the last frame |
| Timeline.FrameForTimeMonotone | Runtime/Scripts/Recording.cs:105-115 | a later time never gives an earlier frame |
| Timeline.FrameForTimeExample | Runtime/Scripts/Recording.cs:105-115 | example only: concrete values on frames at 0, 0.5, 1, 1.5 |
| Timeline.AppendKeepsIncreasing | Runtime/Scripts/Recording.cs:129-137 | an accepted append keeps times strictly increasing, and Length becomes the new time |
| Timeline.AppendAllKeepsIncreasing | Runtime/Scripts/Recording.cs:129-137 | any series of accepted appends keeps times increasing, adds one frame per call and ends with Length = last time |
| Timeline.TruncatedIsPrefix | Runtime/Scripts/Recording.cs:117-122 | truncation gives a prefix of the clamped length and keeps times increasing |
| Timeline.TruncateThenAppend | Runtime/Scripts/Recording.cs:117-137 | after cutting to k frames, a time after frame k−1 may be appended and keeps times increasing |
| Timeline.EditsKeepIncreasing | Runtime/Scripts/Recording.cs:149-204 | input and property upserts do not change frame times |
| Timeline.AddInputThenGet | Runtime/Scripts/Recording.cs:149-162 | after AddInput the id finds the written state and other ids are unaffected; the entry count grows by at most 1; time and properties are kept |
| Timeline.AddInputTwice | Runtime/Scripts/Recording.cs:149-162 | two writes of an id equal the second write; unique ids stay unique |
| Timeline.AddPropertyThenGet | Runtime/Scripts/Recording.cs:192-204 | the same for properties, keyed by name |
| Latch.LatchFrames | Runtime/Scripts/InputVCRRecorder.cs:261-277 | the sweep loop leaves the two dictionaries equal to the overlay of frames first..last, in order |
| Latch.LatchInputs | Runtime/Scripts/InputVCRRecorder.cs:263-269 | one frame: the input dictionary is overlaid with that frame's states |
| Latch.LatchProperties | Runtime/Scripts/InputVCRRecorder.cs:272-276 | one frame: the property dictionary is overlaid with that frame's properties |
| Latch.SweepIsLatest | Runtime/Scripts/InputVCRRecorder.cs:261-277 | after a sweep an id maps to its sample in the latest swept frame that has it, else to its old value |
| Latch.SweepSplit | Runtime/Scripts/InputVCRRecorder.cs:261-277 | sweeping lo..mid then mid..hi equals sweeping lo..hi |
| Latch.LastCrossedFrameWins | Runtime/Scripts/InputVCRRecorder.cs:261-269 | an id sampled in the last swept frame latches that sample |
| Latch.SweepMergesPulse | Runtime/Scripts/InputVCRRecorder.cs:266-268 | when the last swept frame has the button released, no down edge is seen (a pulse inside the sweep is lost), and an up edge is seen iff it was held before |
| Latch.StepwiseEdges | Runtime/Scripts/InputVCRRecorder.cs:255-277 | playing one frame per tick, down/up edges are exactly the changes between consecutive frames' samples |
| Recorder.RecordingState.constructor | Runtime/Scripts/InputVCRRecorder.cs:465-471 | the cursor starts at time 0 and FrameIdx −1 |
| Recorder.RecordingState.SkipToTime | Runtime/Scripts/InputVCRRecorder.cs:473-476 | Time becomes clamp(t, 0, Length) and FrameIdx the frame for it; an empty recording fails after Time is set |
| Recorder.RecordingState.AdvanceByTime | Runtime/Scripts/InputVCRRecorder.cs:478-481 | Time grows by the delta and FrameIdx is recomputed; an empty recording fails after Time is set |
| Recorder.RecordingState.AppendNewRecordingFrame | Runtime/Scripts/InputVCRRecorder.cs:483-487 | Time grows by the delta; the append succeeds iff the recording is empty or the time is after Length; one empty frame is appended and FrameIdx becomes that last frame |
| Recorder.RecordingState.AddInputToCurrentFrame | Runtime/Scripts/InputVCRRecorder.cs:489-491 | the state is upserted into frame FrameIdx, or FrameOutOfRange with frames unchanged |
| Recorder.RecordingState.AddPropertyToCurrentFrame | Runtime/Scripts/InputVCRRecorder.cs:493-495 | the property is upserted into frame FrameIdx, or FrameOutOfRange with frames unchanged |
| Recorder.RecordingState.AddInputsToCurrentFrame | Runtime/Scripts/InputVCRRecorder.cs:292-305 | a loop of current-frame writes upserts the whole list into frame FrameIdx |
| Recorder.RecordingState.AddMoreInputsToCurrentFrame | Runtime/Scripts/InputVCRRecorder.cs:292-305 | a further write loop into a frame that already holds the earlier batches leaves it holding all of them, in order, and every other frame untouched |
| Recorder.RecordingState.ClearRecordingAfterCurrentTime | Runtime/Scripts/InputVCRRecorder.cs:497-499 | the frames become the first FrameIdx frames |
| Recorder.InputVCRRecorder.constructor | Runtime/Scripts/InputVCRRecorder.cs:105-129 | a new component passes live input through, unpaused, with no cursor, an empty queue and empty dictionaries |
| Recorder.InputVCRRecorder.StartRecording | Runtime/Scripts/InputVCRRecorder.cs:145-157 | forced or without a cursor: a fresh empty recording at FrameIdx −1 and an empty queue; otherwise frames after FrameIdx are cut off; always Record mode, unpaused, all three dictionaries empty |
| Recorder.InputVCRRecorder.Record | Runtime/Scripts/InputVCRRecorder.cs:134-136 | Record(false) |
| Recorder.InputVCRRecorder.RecordNew | Runtime/Scripts/InputVCRRecorder.cs:141-143 | Record(true) |
| Recorder.InputVCRRecorder.Play | Runtime/Scripts/InputVCRRecorder.cs:162-168 | Playback and unpaused; the dictionaries are cleared only when not already in Playback |
| Recorder.InputVCRRecorder.PlayNew | Runtime/Scripts/InputVCRRecorder.cs:178-185 | a fresh cursor on the recording, seeked to clamp(t, 0, Length); caches cleared and Playback set, or EmptyRecording thrown by the seek before them |
| Recorder.InputVCRRecorder.Pause | Runtime/Scripts/InputVCRRecorder.cs:190-192 | sets the pause flag |
| Recorder.InputVCRRecorder.RevertToPassthrough | Runtime/Scripts/InputVCRRecorder.cs:204-207 | Passthru mode with all dictionaries empty |
| Recorder.InputVCRRecorder.ClearInput | Runtime/Scripts/InputVCRRecorder.cs:318-322 | all three dictionaries empty |
| Recorder.InputVCRRecorder.SetCurrentPlaybackTime | Runtime/Scripts/InputVCRRecorder.cs:107-121 | no cursor: nothing changes; otherwise seek to clamp(t, 0, Length), and in Record mode the recording is cut from the new FrameIdx on |
| Recorder.InputVCRRecorder.RewindToStart | Runtime/Scripts/InputVCRRecorder.cs:197-199 | the setter with time 0 |
| Recorder.InputVCRRecorder.SaveProperty | Runtime/Scripts/InputVCRRecorder.cs:219-224 | the property is enqueued unless an identical (name, value) is already queued |
| Recorder.InputVCRRecorder.AdvancePlayback | Runtime/Scripts/InputVCRRecorder.cs:241-278 | Time += delta. Past Length: finishedPlayback fires once, Passthru, caches cleared. Same FrameIdx: caches untouched. Otherwise last := previous this, and this-frame inputs/properties := overlay of frames lastIdx+1..FrameIdx |
| Recorder.InputVCRRecorder.RecordCurrentFrame | Runtime/Scripts/InputVCRRecorder.cs:280-311 | one frame is appended at Time+dt holding the upserts of the mouse, button, axis and key samples and of the whole queue; the queue ends empty; a rejected append changes nothing else |
| Recorder.InputVCRRecorder.RecordSamples | Runtime/Scripts/InputVCRRecorder.cs:283-305 | the sample loops upsert the mouse, button, axis and key samples, in that order, into the current frame |
| Recorder.GetMouseButtonId | Runtime/Scripts/InputVCRRecorder.cs:449-453 | the id of a mouse button starts with "MOUSE_BUTTON_" and is never one of the two pointer-axis ids |
| Recorder.MouseSamples | Runtime/Scripts/InputVCRRecorder.cs:284-290 | five samples: buttons 0, 1, 2 under their mouse-button ids with the live button states, then the pointer x and y under the two axis ids |
| Recorder.ButtonSamples | Runtime/Scripts/InputVCRRecorder.cs:293-295 | one sample per configured button, under the button's name, with the live button state and axis value 0 |
| Recorder.AxisSamples | Runtime/Scripts/InputVCRRecorder.cs:298-300 | one sample per configured axis, under the axis's name, with the live axis value and never held |
| Recorder.KeySamples | Runtime/Scripts/InputVCRRecorder.cs:303-305 | one sample per configured key, under the key's id, with the live key state |
| Recorder.RecordedSamplesLayout | Runtime/Scripts/InputVCRRecorder.cs:283-305 | the samples of one tick (RecordedSamples) are the mouse group when enabled, then the button, axis and key groups, each at its own offset |
| Recorder.LastButtonSample | Runtime/Scripts/InputVCRRecorder.cs:283-305 | among one tick's samples, the last one under a button's id is that button's live sample when no axis or key shares the id |
| Recorder.InputVCRRecorder.DrainPropertyQueue | Runtime/Scripts/InputVCRRecorder.cs:308-310 | the dequeue loop writes every queued property, oldest first, into the current frame and ends with an empty queue |
| Recorder.InputVCRRecorder.Update | Runtime/Scripts/InputVCRRecorder.cs:227-237 | paused or Passthru: nothing changes; Playback: AdvancePlayback's contract; Record: RecordCurrentFrame's contract |
| Recorder.InputVCRRecorder.GetKey | Runtime/Scripts/InputVCRRecorder.cs:328-334 | in Playback, held iff the id is latched with state true; otherwise the live key |
| Recorder.InputVCRRecorder.GetKeyDown | Runtime/Scripts/InputVCRRecorder.cs:337-345 | in Playback, held this frame and not last frame (absent = false); otherwise live key-down |
| Recorder.InputVCRRecorder.GetKeyUp | Runtime/Scripts/InputVCRRecorder.cs:348-356 | in Playback, held last frame and not this frame; otherwise live key-up |
| Recorder.InputVCRRecorder.GetKeyCode | Runtime/Scripts/InputVCRRecorder.cs:326 | GetKey on the key code's id |
| Recorder.InputVCRRecorder.GetKeyCodeDown | Runtime/Scripts/InputVCRRecorder.cs:336 | GetKeyDown on the key code's id |
| Recorder.InputVCRRecorder.GetKeyCodeUp | Runtime/Scripts/InputVCRRecorder.cs:347 | GetKeyUp on the key code's id |
| Recorder.InputVCRRecorder.GetButton | Runtime/Scripts/InputVCRRecorder.cs:358-364 | in Playback, latched and held; otherwise the live button |
| Recorder.InputVCRRecorder.GetButtonDown | Runtime/Scripts/InputVCRRecorder.cs:366-374 | in Playback, the rising edge between the two snapshots; otherwise live key-down |
| Recorder.InputVCRRecorder.GetButtonUp | Runtime/Scripts/InputVCRRecorder.cs:376-384 | in Playback, the falling edge between the two snapshots; otherwise live key-up |
| Recorder.InputVCRRecorder.GetAxis | Runtime/Scripts/InputVCRRecorder.cs:386-395 | in Playback, the latched axis value, 0 when absent; otherwise the live axis |
| Recorder.InputVCRRecorder.GetMouseButton | Runtime/Scripts/InputVCRRecorder.cs:397-403 | in Playback, whether the mouse button's id is latched held; otherwise live |
| Recorder.InputVCRRecorder.GetMouseButtonDown | Runtime/Scripts/InputVCRRecorder.cs:405-414 | in Playback, the rising edge of the mouse button's id; otherwise live |
| Recorder.InputVCRRecorder.GetMouseButtonUp | Runtime/Scripts/InputVCRRecorder.cs:416-425 | in Playback, the falling edge of the mouse button's id; otherwise live |
| Recorder.InputVCRRecorder.MousePosition | Runtime/Scripts/InputVCRRecorder.cs:427-437 | in Playback, (latched X axis, latched Y axis, 0), each 0 when absent; otherwise the live pointer |
| Recorder.InputVCRRecorder.GetProperty | Runtime/Scripts/InputVCRRecorder.cs:439-444 | the latched property's value, or "" when absent |
| Recorder.MouseButtonIdExample | Runtime/Scripts/InputVCRRecorder.cs:449-453 | example only: the ids of buttons 0, 2 and −1 are "MOUSE_BUTTON_0", "MOUSE_BUTTON_2" and "MOUSE_BUTTON_-1" |
| Recorder.LastSampleWins | Runtime/Scripts/InputVCRRecorder.cs:283-305 | when only one group of a tick's samples has an id, the last lookup finds that group's sample |
| Recorder.RecordedFrameFindsLastSample | Runtime/Scripts/InputVCRRecorder.cs:280-305 | a recorded frame has unique ids, and each id holds the last sample taken with it |
| Recorder.ButtonRoundTrip | Runtime/Scripts/InputVCRRecorder.cs:293-295 | a button recorded in the last swept frame plays back as the live state it had when recorded |
| Recorder.AxisRoundTrip | Runtime/Scripts/InputVCRRecorder.cs:298-300 | a recorded axis plays back as its recorded live value and reads as not held |
| Recorder.KeyRoundTrip | Runtime/Scripts/InputVCRRecorder.cs:303-305 | a recorded key code plays back as its recorded live state |
| Recorder.SavePropertyKeepsDistinct | Runtime/Scripts/InputVCRRecorder.cs:219-224 | the queue stays free of duplicates, holds the saved property, and grows by at most one |
| Recorder.RecordedPropertyIsLastQueued | Runtime/Scripts/InputVCRRecorder.cs:308-310 | a recorded frame's property is the last one queued with that name |
| Recorder.RepeatedSaveKeepsEarlierValue | Runtime/Scripts/InputVCRRecorder.cs:219-224 | saving a, b, a under one name records b: the second a is skipped as a duplicate |
| Recorder.ResumeRecordingAppends | Runtime/Scripts/InputVCRRecorder.cs:145-157 | resuming from the cursor's frame k accepts the next tick iff cursor time + dt is after frame k's time (always, on increasing frames with a positive dt) |
| Recorder.RewindThenRecordRejectsFirstTick | Runtime/Scripts/InputVCRRecorder.cs:197-199 | example only: after a rewind to 0 with the first frame at 0.5, resuming keeps frame 0 and rejects a 0.5 tick |
| Recorder.RecordWithoutCursorStarts | Runtime/Scripts/InputVCRRecorder.cs:134-157 | Record() on a fresh component starts an empty recording in Record mode |
| Recorder.ResumeKeepsRecording | Runtime/Scripts/InputVCRRecorder.cs:145-157 | Record() after one recorded tick keeps that frame |
| Recorder.FirstRecordedTickRecords | Runtime/Scripts/InputVCRRecorder.cs:280-295 | the first tick of a new recording writes its button sample into the appended frame |
| EarlyRecorder.RecordingState.constructor | Runtime/Scripts/InputVCR.cs:437-442 | the cursor starts at time 0 and FrameIdx 0 |
| EarlyRecorder.RecordingState.SkipToTime | Runtime/Scripts/InputVCR.cs:444-447 | Time is stored unclamped and FrameIdx is the frame for it; an empty recording fails after Time is set |
| EarlyRecorder.RecordingState.AdvanceByTime | Runtime/Scripts/InputVCR.cs:449-452 | Time grows by the delta and FrameIdx is recomputed |
| EarlyRecorder.RecordingState.AppendNewRecordingFrame | Runtime/Scripts/InputVCR.cs:454-458 | Time grows and FrameIdx is incremented before the append, which succeeds iff the time is after Length |
| EarlyRecorder.RecordingState.AddInputToCurrentFrame | Runtime/Scripts/InputVCR.cs:460-462 | the state is upserted into frame FrameIdx, or FrameOutOfRange with frames unchanged |
| EarlyRecorder.RecordingState.AddPropertyToCurrentFrame | Runtime/Scripts/InputVCR.cs:464-466 | the property is upserted into frame FrameIdx, or FrameOutOfRange with frames unchanged |
| EarlyRecorder.RecordingState.AddInputsToCurrentFrame | Runtime/Scripts/InputVCR.cs:257-280 | a loop of current-frame writes: the whole list is upserted into frame FrameIdx, or, outside the recording, the first write throws and nothing is written |
| EarlyRecorder.RecordingState.AddMoreInputsToCurrentFrame | Runtime/Scripts/InputVCR.cs:257-280 | a further write loop into an in-range frame that already holds the earlier batches leaves it holding all of them, in order |
| EarlyRecorder.InputVCR.constructor | Runtime/Scripts/InputVCR.cs:95-115 | a new component passes live input through, unpaused, with no cursor, an empty queue and empty dictionaries |
| EarlyRecorder.InputVCR.StartRecording | Runtime/Scripts/InputVCR.cs:128-140 | forced or with a cursor: a fresh empty recording and empty queue, Record mode, unpaused, caches empty; not forced and without a cursor: NullReference with nothing changed |
| EarlyRecorder.InputVCR.Record | Runtime/Scripts/InputVCR.cs:117-119 | Record(false) |
| EarlyRecorder.InputVCR.RecordNew | Runtime/Scripts/InputVCR.cs:124-126 | Record(true) |
| EarlyRecorder.InputVCR.Play | Runtime/Scripts/InputVCR.cs:145-151 | Playback and unpaused; the caches are cleared only when entering Playback |
| EarlyRecorder.InputVCR.PlayNew | Runtime/Scripts/InputVCR.cs:161-168 | a fresh cursor seeked to the unclamped start time; caches cleared and Playback set, or EmptyRecording thrown by the seek |
| EarlyRecorder.InputVCR.Pause | Runtime/Scripts/InputVCR.cs:173-175 | sets the pause flag |
| EarlyRecorder.InputVCR.RevertToLive | Runtime/Scripts/InputVCR.cs:180-183 | Passthru mode with all dictionaries empty |
| EarlyRecorder.InputVCR.ClearInput | Runtime/Scripts/InputVCR.cs:295-299 | all three dictionaries empty |
| EarlyRecorder.InputVCR.SaveProperty | Runtime/Scripts/InputVCR.cs:195-200 | the property is enqueued unless an identical one is already queued |
| EarlyRecorder.InputVCR.AdvancePlayback | Runtime/Scripts/InputVCR.cs:217-255 | the end-of-recording, unchanged-frame and sweep rules of the current recorder, ending with RevertToLive |
| EarlyRecorder.InputVCR.RecordCurrentFrame | Runtime/Scripts/InputVCR.cs:257-288 | the frame is appended with FrameIdx already one past it (unless the cursor was behind); then the first sample write throws and the rest of the tick is skipped, a property dequeued before its rejected write being lost |
| EarlyRecorder.InputVCR.RecordSamples | Runtime/Scripts/InputVCR.cs:260-280 | in range, all samples are upserted into the current frame; out of range, nothing is written and it fails iff there is a sample |
| EarlyRecorder.InputVCR.SamplesStoreKeyNames | Runtime/Scripts/InputVCR.cs:261-282 | a tick gives one sample per mouse reading (when enabled), button, axis and key; the key group comes last and stores each key under `keyCode.ToString()`, with the live key state |
| EarlyRecorder.InputVCR.RecordSamplesInRange | Runtime/Scripts/InputVCR.cs:260-280 | in range, the whole sample list is upserted into the current frame |
| EarlyRecorder.InputVCR.RecordSamplesOutOfRange | Runtime/Scripts/InputVCR.cs:260-280 | out of range, frames are unchanged and the result fails with FrameOutOfRange iff there is a sample |
| EarlyRecorder.InputVCR.DrainPropertyQueue | Runtime/Scripts/InputVCR.cs:283-286 | in range, every queued property is written and the queue is emptied; out of range, the first dequeued property is lost and the write fails |
| EarlyRecorder.InputVCR.Update | Runtime/Scripts/InputVCR.cs:203-213 | paused or Passthru: nothing changes; otherwise AdvancePlayback's or RecordCurrentFrame's contract |
| EarlyRecorder.InputVCR.GetKey | Runtime/Scripts/InputVCR.cs:305-311 | in Playback, latched and held; otherwise the live key |
| EarlyRecorder.InputVCR.GetKeyDown | Runtime/Scripts/InputVCR.cs:314-322 | in Playback, the rising edge; otherwise live key-down |
| EarlyRecorder.InputVCR.GetKeyUp | Runtime/Scripts/InputVCR.cs:325-333 | in Playback, the falling edge; otherwise live key-up |
| EarlyRecorder.InputVCR.GetKeyCode | Runtime/Scripts/InputVCR.cs:303 | GetKey on the name the key code records under |
| EarlyRecorder.InputVCR.GetKeyCodeDown | Runtime/Scripts/InputVCR.cs:313 | GetKeyDown on that name |
| EarlyRecorder.InputVCR.GetKeyCodeUp | Runtime/Scripts/InputVCR.cs:324 | GetKeyUp on that name |
| EarlyRecorder.InputVCR.GetButton | Runtime/Scripts/InputVCR.cs:335-341 | in Playback, latched and held; otherwise the live button |
| EarlyRecorder.InputVCR.GetButtonDown | Runtime/Scripts/InputVCR.cs:343-351 | in Playback, the rising edge; otherwise live key-down |
| EarlyRecorder.InputVCR.GetButtonUp | Runtime/Scripts/InputVCR.cs:353-361 | in Playback, the falling edge; otherwise live key-up |
| EarlyRecorder.InputVCR.GetAxis | Runtime/Scripts/InputVCR.cs:363-372 | in Playback, the latched axis value, 0 when absent; otherwise live |
| EarlyRecorder.InputVCR.GetMouseButton | Runtime/Scripts/InputVCR.cs:374-380 | in Playback, the latched mouse button; otherwise live |
| EarlyRecorder.InputVCR.GetMouseButtonDown | Runtime/Scripts/InputVCR.cs:382-391 | in Playback, its rising edge; otherwise live |
| EarlyRecorder.InputVCR.GetMouseButtonUp | Runtime/Scripts/InputVCR.cs:393-402 | in Playback, its falling edge; otherwise live |
| EarlyRecorder.InputVCR.MousePosition | Runtime/Scripts/InputVCR.cs:404-414 | in Playback, the latched X/Y axes (0 when absent); otherwise the live pointer |
| EarlyRecorder.InputVCR.GetProperty | Runtime/Scripts/InputVCR.cs:416-421 | the latched property's value, or "" |
| EarlyRecorder.RecordWithoutCursorFaults | Runtime/Scripts/InputVCR.cs:128-140 | Record() on a fresh component throws NullReference and stays in Passthru |
| EarlyRecorder.ResumeDiscardsRecording | Runtime/Scripts/InputVCR.cs:128-135 | Record() after a recorded tick discards that frame |
| EarlyRecorder.FirstRecordedTickFaults | Runtime/Scripts/InputVCR.cs:454-461 | the first tick of a new recording appends an empty frame and then fails with FrameOutOfRange |
| RateRecording.ClosestFrame | Scripts/Recording.cs:180-183 | the frame is t·rate truncated toward zero |
| RateRecording.WholeSeconds | Scripts/Recording.cs:22 | the integer quotient q of frames by rate: q·rate ≤ frames < (q+1)·rate |
| RateRecording.InputInfo.Equals | Scripts/Recording.cs:81-93 | true iff the other entry is not null and has the same name, type and button number, and the same axis value (Axis) or button state (otherwise) |
| RateRecording.Recording.constructor | Scripts/Recording.cs:115-119 | rate 60 and no frames |
| RateRecording.Recording.WithRate | Scripts/Recording.cs:121-125 | the rate is clamped to at least 1, no frames |
| RateRecording.Recording.Copy | Scripts/Recording.cs:133-145 | copying null gives rate 60 and no frames; otherwise the same rate and frame sequence |
| RateRecording.Recording.RecordingLength | Scripts/Recording.cs:22 | whole seconds: the integer quotient of frame count by rate |
| RateRecording.Recording.GetClosestFrame | Scripts/Recording.cs:180-183 | t·rate truncated toward zero |
| RateRecording.Recording.CheckFrame | Scripts/Recording.cs:316-320 | frames are extended with empty frames until the index is inside; existing frames unchanged |
| RateRecording.Recording.AddInput | Scripts/Recording.cs:194-209 | a negative frame throws with frames unchanged; otherwise extend, then replace the entry with the name or append it |
| RateRecording.Recording.AddProperty | Scripts/Recording.cs:223-232 | a negative frame throws; otherwise extend, then set the name's entry in the frame's dictionary |
| RateRecording.Recording.GetInput | Scripts/Recording.cs:246-263 | the first entry with the name, None out of range or when missing |
| RateRecording.Recording.GetInputs | Scripts/Recording.cs:274-283 | the frame's entries, or the empty list out of range |
| RateRecording.Recording.GetProperty | Scripts/Recording.cs:297-313 | present iff in range and the name is in the frame's dictionary, then that value |
| RateRecording.ExtendedKeepsPrefix | Scripts/Recording.cs:316-320 | extension keeps every old frame, adds only empty frames, and reaches max(count, f+1) |
| RateRecording.ClosestFrameOfFrameStart | Scripts/Recording.cs:180-183 | the start time k/rate of frame k maps back to frame k |
| RateRecording.ClosestFrameMonotone | Scripts/Recording.cs:180-183 | for non-negative times a later time never maps to an earlier frame |
| RateRecording.WholeSecondsStep | Scripts/Recording.cs:22 | arithmetic helper: one more second of frames adds exactly one to the length |
| RateRecording.AddInputThenGet | Scripts/Recording.cs:194-209 | after AddInput the name reads back the written entry; other frames are unchanged and at most one entry is added |
| RateRecording.AddInputKeepsOtherNames | Scripts/Recording.cs:194-209 | other names read as before |
| RateRecording.AddPropertyThenGet | Scripts/Recording.cs:223-232 | after AddProperty the name reads the value, others read as before, and the name-keyed dictionary stays consistent |
| RateRecording.OutOfRangeReadsAreEmpty | Scripts/Recording.cs:246-313 | out-of-range reads give None |
| RateRecording.EqualsIsEquivalence | Scripts/Recording.cs:81-93 | Equals is reflexive, symmetric and transitive |
| RateRecording.EqualsIgnoresUnusedField | Scripts/Recording.cs:81-93 | two axis entries that differ only in button state are Equals |
| LegacyRecording.InputInfo.Equals | Recording.cs:355-367 | true iff the other entry is not null and has the same name, isAxis and button number, and the same axis value (axis) or button state (otherwise) |
| LegacyRecording.Recording.constructor | Recording.cs:23-27 | rate 60 and no frames |
| LegacyRecording.Recording.WithRate | Recording.cs:29-33 | the rate is clamped to at least 1 |
| LegacyRecording.Recording.Copy | Recording.cs:41-45 | the same rate and frame sequence |
| LegacyRecording.Recording.RecordingLength | Recording.cs:21 | the integer quotient of frame count by rate |
| LegacyRecording.Recording.GetClosestFrame | Recording.cs:79-82 | t·rate truncated toward zero |
| LegacyRecording.Recording.CheckFrame | Recording.cs:218-222 | frames extended with empty frames to include the index |
| LegacyRecording.Recording.AddInput | Recording.cs:93-108 | a negative frame throws; otherwise extend, then upsert the entry by name |
| LegacyRecording.Recording.AddProperty | Recording.cs:119-134 | a negative frame throws; otherwise extend, then upsert the property by name |
| LegacyRecording.Recording.GetInput | Recording.cs:148-165 | the first entry with the name; None out of range or when missing |
| LegacyRecording.Recording.GetInputs | Recording.cs:176-185 | the frame's entries, or None (null) out of range |
| LegacyRecording.Recording.GetProperty | Recording.cs:199-215 | the first property's value with the name; None out of range or when missing |
| LegacyRecording.AddInputThenGet | Recording.cs:93-108 | the written name reads back the entry, others read as before, other frames unchanged |
| LegacyRecording.AddPropertyThenGet | Recording.cs:119-134 | the written name reads back the value, others read as before |
| LegacyRecording.EqualsIsEquivalence | Recording.cs:355-367 | Equals is reflexive, symmetric and transitive |
| LegacyRecording.EqualsIgnoresUnusedField | Recording.cs:355-367 | two button entries that differ only in axis value are Equals |
| LegacyVCR.MouseButtonInputs | InputVCR.cs:310-317 | the three mouse-button entries are named mousebutton0..2 with button numbers 0..2 and are always released (state never set) |
| LegacyVCR.SampledInput | InputVCR.cs:321-327 | sampling keeps name, kind and button number; an axis reads the live axis; as written, an entry with a mouse button number reads the live button of its name, and a plain button is kept unchanged |
| LegacyVCR.SampledAll | InputVCR.cs:321-328 | every configured input is sampled in place, in order |
| LegacyVCR.Gap | InputVCR.cs:303 | the frames still to record while behind real time: positive while behind |
| LegacyVCR.RecordStep | InputVCR.cs:304-342 | a loop pass fails only on a negative frame, and a failed pass leaves the frame where it was |
| LegacyVCR.RecordStepOutcome | InputVCR.cs:304-342 | a pass throws, always IndexOutOfRange, exactly when the frame is negative and the mouse, an input or a queued property is to be written; a failed pass keeps the frame and the frame list, a successful one empties the queue and advances by one |
| LegacyVCR.RecordUntil | InputVCR.cs:303-343 | the catch-up loop can fail only with IndexOutOfRange, and only while the frame is negative |
| LegacyVCR.ChangedIn | InputVCR.cs:262-273 | collecting one frame's changes never drops a change already collected |
| LegacyVCR.ChangedOver | InputVCR.cs:260-273 | a sweep that succeeds read only frames inside the recording |
| LegacyVCR.PointerAt | InputVCR.cs:436-450 | a pointer other than the live one is the parsed, non-empty "mousepos" property of the current frame |
| LegacyVCR.BehindIsBelowFrameTime | InputVCR.cs:303 | currentTime < realRecordingTime iff frame < time·rate |
| LegacyVCR.ChangedOverDefined | InputVCR.cs:260-262 | the sweep is defined iff the range is empty or lies inside the recording (GetInputs is null elsewhere) |
| LegacyVCR.InputTable.constructor | InputVCR.cs:104-105 | a new dictionary is empty |
| LegacyVCR.InputTable.Clear | InputVCR.cs:168-169 | Clear empties the dictionary |
| LegacyVCR.InputVCR.constructor | InputVCR.cs:84-107 | Passthru, no recording, frame 0, next sync at −1, empty queue, two distinct empty dictionaries |
| LegacyVCR.InputVCR.Record | InputVCR.cs:114-120 | no recording or length 0: NewRecording; otherwise only the mode changes to Record |
| LegacyVCR.InputVCR.NewRecording | InputVCR.cs:125-136 | a fresh empty recording at the configured rate, frame 0, real time 0, empty queue, Record mode |
| LegacyVCR.InputVCR.Play | InputVCR.cs:142-152 | from Pause: only resumes Playback; otherwise Play(current recording, 0), NullReference without one |
| LegacyVCR.InputVCR.PlayFrom | InputVCR.cs:163-173 | a copy of the recording, frame = t·rate truncated toward zero, playback time t, both dictionaries cleared, Playback |
| LegacyVCR.InputVCR.Pause | InputVCR.cs:178-181 | Pause mode |
| LegacyVCR.InputVCR.Stop | InputVCR.cs:186-191 | Passthru, frame 0 and playback time 0 |
| LegacyVCR.InputVCR.SyncProperty | InputVCR.cs:219-225 | the property is enqueued unless an identical one is queued |
| LegacyVCR.InputVCR.SyncPosition | InputVCR.cs:197-207 | a no-op outside Record; in Record it queues position then rotation |
| LegacyVCR.InputVCR.PlaybackTick | InputVCR.cs:240-298 | the two dictionaries become one object; frame = time·rate truncated toward zero; past the frame count: event once and Stop; else the collected changes are merged and time advances, or NullReference when the sweep reads past the end |
| LegacyVCR.InputVCR.CollectChanges | InputVCR.cs:259-274 | the frame loop returns ChangedOver, None where GetInputs is null |
| LegacyVCR.InputVCR.ChangesIn | InputVCR.cs:262-273 | the loop over one frame collects the entries that differ from the latched value, later ones overwriting |
| LegacyVCR.InputVCR.MergeChanges | InputVCR.cs:288-294 | the table becomes the old table overridden by the changes |
| LegacyVCR.InputVCR.RecordTick | InputVCR.cs:299-344 | real time grows by dt and the recorded state equals RecordUntil: record frames until the frame time catches up, stopping at the first fault |
| LegacyVCR.InputVCR.RecordFrame | InputVCR.cs:304-342 | one loop pass leaves the recorded state equal to RecordStep of the state before |
| LegacyVCR.InputVCR.RecordFrameAt | InputVCR.cs:305-342 | on a non-negative frame the pass succeeds, samples the inputs, empties the queue, advances the frame, and the frame list holds exactly the pass's writes |
| LegacyVCR.InputVCR.RecordFrameInputs | InputVCR.cs:305-328 | the mouse writes (when enabled) and every sampled input land in the frame, in order |
| LegacyVCR.InputVCR.RecordMouse | InputVCR.cs:306-318 | the pointer property and the three mouse-button entries are written into the frame |
| LegacyVCR.InputVCR.RecordFrameProperties | InputVCR.cs:330-340 | the sync properties when due and then the queued properties land in the frame; the queue ends empty and the next sync time is set |
| LegacyVCR.InputVCR.RecordFrameBeforeStart | InputVCR.cs:304-342 | on a negative frame the pass equals RecordStep: the first write throws after the sampling and sync before it |
| LegacyVCR.InputVCR.RecordMouseButtons | InputVCR.cs:310-317 | the three mouse-button entries are written into the frame |
| LegacyVCR.InputVCR.RecordInputs | InputVCR.cs:321-328 | each input is sampled in place and written; a negative frame throws at the first write |
| LegacyVCR.InputVCR.RecordInput | InputVCR.cs:323-327 | one input sampled in place and written into the frame |
| LegacyVCR.InputVCR.RecordQueued | InputVCR.cs:338-340 | the queued properties are written into the frame (a negative frame throws unless the queue is empty) |
| LegacyVCR.InputVCR.LateUpdate | InputVCR.cs:238-345 | Playback: PlaybackTick's contract; Record: RecordTick's contract; Passthru and Pause: nothing changes |
| LegacyVCR.ChangedInFacts | InputVCR.cs:262-272 | each collected entry is keyed by its name and differs from the latched value, and every differing entry is collected |
| LegacyVCR.ChangedOverCollectsAll | InputVCR.cs:259-274 | across a sweep, every input of every swept frame that differs from the latched value is collected, and nothing else |
| LegacyVCR.BriefPressIsLatched | InputVCR.cs:259-294 | example only: a press then a release inside one sweep, from a released latch, latches the press |
| LegacyVCR.RecordedAtReadsLastWrite | InputVCR.cs:304-340 | after a loop pass frame f's inputs and properties read each name's last write, or the old value, and other frames are unchanged |
| LegacyVCR.RecordUntilCatchesUp | InputVCR.cs:303-343 | the loop never moves the frame back and, if no write faults, stops once currentTime ≥ realRecordingTime |
| LegacyVCR.RecordStepRecordsFrame | InputVCR.cs:304-342 | a pass on a valid frame records every sample's last value into that frame, empties the queue and advances the frame by one |
| LegacyVCR.PauseBlocksQueries | InputVCR.cs:349-433 | in Pause every query is false, 0 or the zero vector |
| LegacyVCR.QueriesReadLatchedOrLive | InputVCR.cs:349-391 | in Playback with the key latched, the latched state and edges; otherwise (key absent or not playing) live input |
| LegacyVCR.InputVCR.GetButton | InputVCR.cs:349-358 | false while paused; the live button in Passthru and Record |
| LegacyVCR.InputVCR.GetButtonDown | InputVCR.cs:360-369 | false while paused; in Playback a latched button reports a down edge only while held; live in Passthru and Record |
| LegacyVCR.InputVCR.GetButtonUp | InputVCR.cs:371-380 | false while paused; in Playback a latched button reports an up edge only while released; live in Passthru and Record |
| LegacyVCR.InputVCR.GetAxis | InputVCR.cs:382-391 | 0 while paused; the live axis in Passthru and Record |
| LegacyVCR.InputVCR.GetMouseButton | InputVCR.cs:393-403 | false while paused; in Playback the latched state of "mousebutton" + n when latched, else live; the live mouse button in Passthru and Record |
| LegacyVCR.InputVCR.GetMouseButtonDown | InputVCR.cs:405-415 | false while paused; in Playback with "mousebutton" + n latched, true iff it is held and was absent from or released in the last-frame table, else live; a down edge only while held; live in Passthru and Record |
| LegacyVCR.InputVCR.GetMouseButtonUp | InputVCR.cs:417-427 | false while paused; in Playback with "mousebutton" + n latched, true iff it is released and was absent from or held in the last-frame table, else live; an up edge only while released; live in Passthru and Record |
| LegacyVCR.MouseQueriesReadLatchedButton | InputVCR.cs:393-427 | in Playback a latched mouse button gives the same held, down and up answers as the button queries on its name |
| LegacyVCR.InputVCR.MousePosition | InputVCR.cs:429-452 | NullReference exactly in Playback without a recording; in Playback with a recording, the parsed "mousepos" property of the current frame or the live pointer (`PointerAt`); the zero vector while paused; the live pointer in Passthru and Record |
| LegacyVCR.InputVCR.GetProperty | InputVCR.cs:454-457 | NullReference exactly without a recording; with one, the recording's property of the current frame (`PropertyAt`), found only for a frame inside the recording |
| LegacyVCR.AliasedTablesHideEdges | InputVCR.cs:244 | with one object for both dictionaries no button ever shows a down or up edge |
| LegacyVCR.CopiedSnapshotsShowPress | InputVCR.cs:244-294 | with a copied snapshot, a button whose change is collected shows a down edge iff it was released before |
| LegacyVCR.EndCheckLetsSweepPastEnd | InputVCR.cs:249-262 | with the test as written the frame equal to the count is swept and the sweep is undefined |
| LegacyVCR.EndCheckKeepsSweepInRange | InputVCR.cs:249-262 | with the intended test every swept frame is inside the recording |
| LegacyVCR.IntendedSampledInput | InputVCR.cs:321-327 | axes read live axes and plain buttons read live buttons; mouse entries are kept |
| LegacyVCR.PlainButtonsAreNotSampled | InputVCR.cs:325-326 | as written a plain button keeps its configured state, unlike the intended sampling |
| LegacyVCR.IntendedMouseButtonInputs | InputVCR.cs:310-317 | the intended mouse entries carry the live state of each button |
| LegacyVCR.RecordedPointerIsNeverQueried | InputVCR.cs:308 | writing "mousePos" does not change the pointer that mousePosition reads for that frame |
| LegacyVCR.RecordedPointerIsReadBack | InputVCR.cs:429-452 | written under "mousepos", the recorded pointer is read back |
| LegacyVCR.HeldButtonRecordedReleased | InputVCR.cs:320-328 | recording a held plain button stores it as released |
| LegacyVCR.StartFramePressIsSkipped | InputVCR.cs:260 | a press in frame 0 released in frame 1, played from the start for two ticks: only the release is latched, and the button is never reported held or down |
| LegacyVCR.SweepFromStartLatchesStartFrame | InputVCR.cs:260-273 | a sweep from the start frame itself after Play reads that frame and latches each of its inputs |
| LegacyVCR.PlaybackHidesPress | InputVCR.cs:244 | after two playback ticks (the first stays on frame 0) a pressed button is held but never reports a down edge |
| LegacyVCR.PlaybackAtEndFaults | InputVCR.cs:249-262 | playing a one-frame recording, the second tick sweeps past the end and throws NullReference |

## Findings

| source | as written | input that shows it | evidently intended | confidence | as-written member | corrected member |
|---|---|---|---|---|---|---|
| Runtime/Scripts/InputVCR.cs:129 | the test "forced, or currentRecord != null" starts a new recording whenever a cursor exists, and truncates through a null cursor otherwise | `Record()` on a fresh component (throws); `RecordNew`, one tick, `Record()` (discards the frame) | a null test (`recordingState == null` in Runtime/Scripts/InputVCRRecorder.cs:146) | high, not executed | EarlyRecorder.RecordWithoutCursorFaults | Recorder.RecordWithoutCursorStarts |
| Runtime/Scripts/InputVCR.cs:454-458 | `FrameIdx` starts at 0 and is incremented before `AddFrame`, so after the first append it points one past the new frame | `RecordNew` with one recorded button, then one tick: the write throws and the frame stays empty | `FrameIdx = FrameCount - 1` after the append, as in Runtime/Scripts/InputVCRRecorder.cs:486 | high, not executed | EarlyRecorder.FirstRecordedTickFaults | Recorder.FirstRecordedTickRecords |
| InputVCR.cs:244 | `lastFrameInputs = thisFrameInputs` makes both names one dictionary, so down/up edges never show in playback | a recording where "Fire" is pressed in frame 1, played two ticks at rate 1 (the first stays on frame 0) | a copy of the previous snapshot | high, not executed | LegacyVCR.PlaybackHidesPress | LegacyVCR.CopiedSnapshotsShowPress |
| InputVCR.cs:249 | `currentFrame > totalFrames` lets `currentFrame == totalFrames` through, and `GetInputs` of that frame is null | a one-frame recording at rate 1, two ticks of 1 s | `>=` | high, not executed | LegacyVCR.PlaybackAtEndFaults | LegacyVCR.EndCheckKeepsSweepInRange |
| InputVCR.cs:260 | the sweep starts at `lastFrame + 1`, and after `Play` the cursor is the start frame with both tables cleared, so the start frame is never read | a recording where "Fire" is pressed in frame 0 and released in frame 1, played from time 0 for two ticks at rate 1 | the first step after `Play` also sweeps the start frame | low, not executed (the current recorder has the same shape at Runtime/Scripts/InputVCRRecorder.cs:261) | LegacyVCR.StartFramePressIsSkipped | LegacyVCR.SweepFromStartLatchesStartFrame |
| InputVCR.cs:325 | `mouseButtonNum >= 0` samples the mouse entries instead of the plain buttons | a held "Jump" button (mouseButtonNum −1) is recorded as released | `mouseButtonNum < 0` | high, not executed | LegacyVCR.HeldButtonRecordedReleased | LegacyVCR.IntendedSampledInput |
| InputVCR.cs:312-316 | the mouse-button entries are written without a button state | any frame recorded with recordMouseEvents while a mouse button is held | the live button state | medium, not executed | LegacyVCR.MouseButtonInputs | LegacyVCR.IntendedMouseButtonInputs |
| InputVCR.cs:308 | the pointer is written as "mousePos", while mousePosition (line 437) reads "mousepos" | any frame recorded with recordMouseEvents, then played | one name for both | high, not executed | LegacyVCR.RecordedPointerIsNeverQueried | LegacyVCR.RecordedPointerIsReadBack |

The classes model the code as written; each corrected member stands beside them and
carries the intended property.

## Left out

- JSON serialisation and parsing (`ToJson`, `ToString`, `ParseRecording`, the schema-version hooks): foreign library calls with an unspecified text format.
- Runtime/Scripts/KeycodeHelper.cs is not part of this model: the key-code-to-name table is the parameter `keyCodeId` of the current recorder and `keyName` of the earlier copy (the name `keyCode.ToString()` gives).
- Float formatting and parsing in InputVCR.cs (`Vector3ToString`, `ParseVector3`, the pointer text and its split and `float.TryParse`): these are the `Config` oracles `mouseText`, `vectorText` and `parsePointer`.
- Transform snapping during playback (`snapToSyncedLocation`, InputVCR.cs:275-284) and `GetRecording`: engine transform state, not timeline logic.
- The inspector-set initial mode and the unused `recordTouchEvents` of InputVCR.cs: editor configuration.
- `autoSyncLocationRate` is modelled as the sync interval `1 / autoSyncLocationRate` in `Config.syncInterval`.
- Shallow-copy aliasing of frame lists in the copy constructors: copies are value copies of the frame sequence, so a later edit of the source recording is not seen through the copy.
- The InputInfo copy constructors of the legacy recordings: entries are values, so storing a copy and storing the entry are the same in the model.
- Floating-point rounding: times are `real`, and the C# float-to-int casts are exact truncation with no overflow.
- LegacyVCR.InputVCR.PlayFrom: requires the recording's rate to be at least 1, which both recording constructors guarantee.
- Recorder.InputVCRRecorder.PlayNew and EarlyRecorder.InputVCR.PlayNew: `PlayNew(null)` is not modelled (the parameter is non-null).
- LegacyRecording.Recording.Copy: the root copy constructor dereferences its argument; copying null (a NullReference) is not modelled (the parameter is non-null).
- The legacy `lastFrameInputs == null` checks in the queries: both dictionaries exist from construction in the model, so those branches are unreachable.
- LegacyRecording.Recording.RecordingLength and RateRecording.Recording.RecordingLength: the C# property returns the integer quotient converted to float; the model returns the natural number, and it assumes a rate of at least 1, which every constructor guarantees (a zero rate throws DivideByZeroException at Scripts/Recording.cs:22 and Recording.cs:21).
- Live input, `Time.deltaTime` and `Time.time` are parameters (`LiveInput`, `dt`, `Tick.now`); the `finishedPlayback` event is a ghost counter.
- Concurrency and the engine's frame scheduling: every operation is one sequential call.
- Logging: the `Debug.LogWarning` calls (in Runtime/Scripts/Recording.cs, Scripts/Recording.cs, Recording.cs, and the `SyncPosition` guard of InputVCR.cs) are dropped; no behaviour depends on them.
