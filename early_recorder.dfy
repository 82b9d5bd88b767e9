/** The earlier copy of the recorder component. Its structure is that of the
  * current recorder; it differs in the cursor (no clamp on seek, the frame
  * index starts at 0 and is bumped before each append), in the branch
  * condition of Record, and in recording key codes under their enumeration
  * names. */
module EarlyRecorder {
  import opened Common
  import Keyed
  import opened Timeline
  import opened Latch
  import Recorder

  type Mode = Recorder.Mode

  /** The cursor over one recording. */
  class RecordingState {
    const targetRecording: Recording
    var time: real
    var frameIdx: int

    constructor (recording: Recording)
      ensures targetRecording == recording && time == 0.0 && frameIdx == 0
    {
      targetRecording := recording;
      time := 0.0;
      frameIdx := 0;
    }

    /** The seek stores the time as given, without clamping it. */
    method SkipToTime(newTime: real) returns (st: Status)
      modifies this
      ensures time == newTime
      ensures st == Ok <==> |targetRecording.frames| > 0
      ensures st.Failed? ==> st.fault == EmptyRecording && frameIdx == old(frameIdx)
      ensures st == Ok ==> frameIdx == FrameForTime(targetRecording.frames, time)
    {
      time := newTime;
      var r := targetRecording.GetFrameForTime(newTime);
      if r.Failure? {
        return Failed(r.fault);
      }
      frameIdx := r.value;
      return Ok;
    }

    method AdvanceByTime(deltaTime: real) returns (st: Status)
      modifies this
      ensures time == old(time) + deltaTime
      ensures st == Ok <==> |targetRecording.frames| > 0
      ensures st.Failed? ==> st.fault == EmptyRecording && frameIdx == old(frameIdx)
      ensures st == Ok ==> frameIdx == FrameForTime(targetRecording.frames, time)
    {
      time := time + deltaTime;
      var r := targetRecording.GetFrameForTime(time);
      if r.Failure? {
        return Failed(r.fault);
      }
      frameIdx := r.value;
      return Ok;
    }

    /** The frame index is bumped before the append, whether or not the
      * append is accepted. */
    method AppendNewRecordingFrame(deltaTime: real) returns (st: Status)
      modifies this, targetRecording
      ensures time == old(time) + deltaTime && frameIdx == old(frameIdx) + 1
      ensures st == Ok <==> CanAppendAt(old(targetRecording.frames), time)
      ensures st.Failed? ==> st.fault == FrameNotAfterEnd && targetRecording.frames == old(targetRecording.frames)
      ensures st == Ok ==> targetRecording.frames == old(targetRecording.frames) + [EmptyFrame(time)]
    {
      time := time + deltaTime;
      frameIdx := frameIdx + 1;
      st := targetRecording.AddFrame(time);
    }

    method AddInputToCurrentFrame(inputState: InputState) returns (st: Status)
      modifies targetRecording
      ensures st == Ok <==> 0 <= frameIdx < |old(targetRecording.frames)|
      ensures st.Failed? ==> st.fault == FrameOutOfRange && targetRecording.frames == old(targetRecording.frames)
      ensures st == Ok ==> targetRecording.frames
                           == old(targetRecording.frames)[frameIdx := WithInput(old(targetRecording.frames)[frameIdx], inputState)]
    {
      st := targetRecording.AddInput(frameIdx, inputState);
    }

    method AddPropertyToCurrentFrame(frameProperty: FrameProperty) returns (st: Status)
      modifies targetRecording
      ensures st == Ok <==> 0 <= frameIdx < |old(targetRecording.frames)|
      ensures st.Failed? ==> st.fault == FrameOutOfRange && targetRecording.frames == old(targetRecording.frames)
      ensures st == Ok ==> targetRecording.frames
                           == old(targetRecording.frames)[frameIdx := WithProperty(old(targetRecording.frames)[frameIdx], frameProperty)]
    {
      st := targetRecording.AddProperty(frameIdx, frameProperty);
    }

    /** AddInputToCurrentFrame for each state in turn; the first rejected
      * write throws, so nothing of the list is written when the cursor is
      * outside the recording. */
    method AddInputsToCurrentFrame(states: seq<InputState>) returns (st: Status)
      modifies targetRecording
      ensures 0 <= frameIdx < |old(targetRecording.frames)| ==>
        st == Ok &&
        targetRecording.frames == old(targetRecording.frames)[frameIdx := Recorder.WithInputs(old(targetRecording.frames)[frameIdx], states)]
      ensures !(0 <= frameIdx < |old(targetRecording.frames)|) ==>
        targetRecording.frames == old(targetRecording.frames) &&
        (st == Ok <==> states == []) && (st.Failed? ==> st.fault == FrameOutOfRange)
    {
      var i := 0;
      while i < |states|
        invariant 0 <= i <= |states|
        invariant 0 <= frameIdx < |old(targetRecording.frames)| ==>
          targetRecording.frames
          == old(targetRecording.frames)[frameIdx := Recorder.WithInputs(old(targetRecording.frames)[frameIdx], states[..i])]
        invariant !(0 <= frameIdx < |old(targetRecording.frames)|) ==> i == 0 && targetRecording.frames == old(targetRecording.frames)
      {
        st := AddInputToCurrentFrame(states[i]);
        if st.Failed? {
          return;
        }
        assert states[..i + 1][..i] == states[..i];
        i := i + 1;
      }
      assert states[..|states|] == states;
      return Ok;
    }

    /** One more batch of writes into a frame that already holds the batches
      * done: the frame then holds all of them, in order. */
    method AddMoreInputsToCurrentFrame(ghost frames0: seq<Frame>, ghost done: seq<InputState>, states: seq<InputState>)
      requires 0 <= frameIdx < |frames0|
      requires targetRecording.frames == frames0[frameIdx := Recorder.WithInputs(frames0[frameIdx], done)]
      modifies targetRecording
      ensures targetRecording.frames == frames0[frameIdx := Recorder.WithInputs(frames0[frameIdx], done + states)]
    {
      var st := AddInputsToCurrentFrame(states);
      Keyed.UpsertAllAppend(frames0[frameIdx].inputManagerStates, InputKey, done, states);
    }
  }

  class InputVCR {
    const recordedButtons: seq<string>
    const recordedAxes: seq<string>
    const recordedKeys: seq<KeyCode>
    const recordMouseEvents: bool
    /** keyCode.ToString(): the enumeration name of a key code, which is not
      * part of this model. */
    const keyName: KeyCode -> string

    var mode: Mode
    var isPaused: bool
    var currentRecord: RecordingState?
    var nextPropertiesToRecord: seq<FrameProperty>
    var lastFrameInputs: InputTable
    var thisFrameInputs: InputTable
    var thisFrameProperties: PropertyTable
    ghost var finishedPlaybackCount: nat

    const inputStateCache: Buffer<InputState>
    const propCache: Buffer<FrameProperty>

    ghost function Footprint(): set<object>
      reads this
    {
      if currentRecord == null then {} else {currentRecord, currentRecord.targetRecording}
    }

    ghost predicate Valid()
      reads this, Footprint()
    {
      currentRecord != null ==> currentRecord.frameIdx >= 0
    }

    constructor (buttons: seq<string>, axes: seq<string>, keys: seq<KeyCode>, recordMouse: bool,
                 keyCodeName: KeyCode -> string)
      ensures Valid()
      ensures recordedButtons == buttons && recordedAxes == axes && recordedKeys == keys
      ensures recordMouseEvents == recordMouse && keyName == keyCodeName
      ensures mode == Recorder.Passthru && !isPaused && currentRecord == null && nextPropertiesToRecord == []
      ensures lastFrameInputs == map[] && thisFrameInputs == map[] && thisFrameProperties == map[]
      ensures finishedPlaybackCount == 0
      ensures fresh(inputStateCache) && fresh(propCache)
    {
      recordedButtons, recordedAxes, recordedKeys := buttons, axes, keys;
      recordMouseEvents, keyName := recordMouse, keyCodeName;
      mode, isPaused, currentRecord := Recorder.Passthru, false, null;
      nextPropertiesToRecord := [];
      lastFrameInputs, thisFrameInputs, thisFrameProperties := map[], map[], map[];
      finishedPlaybackCount := 0;
      inputStateCache := new Buffer<InputState>();
      propCache := new Buffer<FrameProperty>();
    }

    function CurrentRecording(): Recording?
      reads this
    {
      if currentRecord == null then null else currentRecord.targetRecording
    }

    function CurrentPlaybackTime(): real
      reads this, Footprint()
    {
      if currentRecord == null then 0.0 else currentRecord.time
    }

    predicate InputCleared()
      reads this
    {
      lastFrameInputs == map[] && thisFrameInputs == map[] && thisFrameProperties == map[]
    }

    // -------------------------------------------------------------------
    // Mode control

    /** The effect of Record(forceNewRecording) as written: any existing
      * cursor is replaced by a fresh recording, and the non-forced call
      * without a cursor dereferences the missing cursor. */
    twostate predicate RecordingStarted(forceNewRecording: bool, st: Status)
      reads this, Footprint()
    {
      finishedPlaybackCount == old(finishedPlaybackCount) &&
      if !forceNewRecording && old(currentRecord) == null then
        st == Failed(NullReference) && currentRecord == null && mode == old(mode) && isPaused == old(isPaused) &&
        nextPropertiesToRecord == old(nextPropertiesToRecord) && lastFrameInputs == old(lastFrameInputs) &&
        thisFrameInputs == old(thisFrameInputs) && thisFrameProperties == old(thisFrameProperties)
      else
        st == Ok && mode == Recorder.Record && !isPaused && InputCleared() &&
        currentRecord != null && fresh(currentRecord) && fresh(currentRecord.targetRecording) &&
        currentRecord.targetRecording.frames == [] && currentRecord.time == 0.0 && currentRecord.frameIdx == 0 &&
        nextPropertiesToRecord == []
    }

    method StartRecording(forceNewRecording: bool) returns (st: Status)
      requires Valid()
      modifies this, Footprint()
      ensures Valid() && RecordingStarted(forceNewRecording, st)
    {
      if forceNewRecording || currentRecord != null {
        var rec := new Recording();
        currentRecord := new RecordingState(rec);
        nextPropertiesToRecord := [];
      } else {
        // currentRecord is null here: the truncation throws
        return Failed(NullReference);
      }
      mode := Recorder.Record;
      isPaused := false;
      ClearInput();
      return Ok;
    }

    method Record() returns (st: Status)
      requires Valid()
      modifies this, Footprint()
      ensures Valid() && RecordingStarted(false, st)
    {
      st := StartRecording(false);
    }

    method RecordNew() returns (st: Status)
      requires Valid()
      modifies this, Footprint()
      ensures Valid() && RecordingStarted(true, st)
    {
      st := StartRecording(true);
    }

    method Play()
      modifies this
      ensures mode == Recorder.Playback && !isPaused
      ensures old(mode) != Recorder.Playback ==> InputCleared()
      ensures old(mode) == Recorder.Playback ==> lastFrameInputs == old(lastFrameInputs) && thisFrameInputs == old(thisFrameInputs)
                                                 && thisFrameProperties == old(thisFrameProperties)
      ensures currentRecord == old(currentRecord) && nextPropertiesToRecord == old(nextPropertiesToRecord)
      ensures finishedPlaybackCount == old(finishedPlaybackCount)
    {
      if mode != Recorder.Playback {
        ClearInput();
        mode := Recorder.Playback;
      }
      isPaused := false;
    }

    method PlayNew(record: Recording, startPlaybackFromTime: real) returns (st: Status)
      modifies this
      ensures Valid()
      ensures currentRecord != null && fresh(currentRecord) && currentRecord.targetRecording == record
      ensures currentRecord.time == startPlaybackFromTime
      ensures st == Ok <==> |record.frames| > 0
      ensures st.Failed? ==> st.fault == EmptyRecording && currentRecord.frameIdx == 0 && mode == old(mode)
                             && thisFrameInputs == old(thisFrameInputs) && lastFrameInputs == old(lastFrameInputs)
                             && thisFrameProperties == old(thisFrameProperties)
      ensures st == Ok ==> currentRecord.frameIdx == FrameForTime(record.frames, startPlaybackFromTime)
                           && mode == Recorder.Playback && InputCleared()
      ensures isPaused == old(isPaused) && nextPropertiesToRecord == old(nextPropertiesToRecord)
      ensures finishedPlaybackCount == old(finishedPlaybackCount)
    {
      currentRecord := new RecordingState(record);
      st := currentRecord.SkipToTime(startPlaybackFromTime);
      if st.Failed? {
        return;
      }
      ClearInput();
      mode := Recorder.Playback;
    }

    method Pause()
      modifies this`isPaused
      ensures isPaused
    {
      isPaused := true;
    }

    method RevertToLive()
      modifies this`mode, this`lastFrameInputs, this`thisFrameInputs, this`thisFrameProperties
      ensures mode == Recorder.Passthru && InputCleared()
    {
      mode := Recorder.Passthru;
      ClearInput();
    }

    method ClearInput()
      modifies this`lastFrameInputs, this`thisFrameInputs, this`thisFrameProperties
      ensures InputCleared()
    {
      thisFrameInputs := map[];
      lastFrameInputs := map[];
      thisFrameProperties := map[];
    }

    method SaveProperty(propertyName: string, propertyValue: string)
      modifies this`nextPropertiesToRecord
      ensures nextPropertiesToRecord == Enqueued(old(nextPropertiesToRecord), FrameProperty(propertyName, propertyValue))
    {
      var frameProp := FrameProperty(propertyName, propertyValue);
      if frameProp !in nextPropertiesToRecord {
        nextPropertiesToRecord := nextPropertiesToRecord + [frameProp];
      }
    }

    // -------------------------------------------------------------------
    // The per-tick step

    twostate predicate PlaybackAdvanced(delta: real, st: Status)
      reads this, Footprint()
    {
      var rs := old(currentRecord);
      currentRecord == rs && isPaused == old(isPaused) &&
      nextPropertiesToRecord == old(nextPropertiesToRecord) &&
      if rs == null then
        st == Failed(NullReference) && mode == old(mode) && finishedPlaybackCount == old(finishedPlaybackCount) &&
        lastFrameInputs == old(lastFrameInputs) && thisFrameInputs == old(thisFrameInputs) &&
        thisFrameProperties == old(thisFrameProperties)
      else
        var frames := rs.targetRecording.frames;
        var lastIdx := old(rs.frameIdx);
        frames == old(rs.targetRecording.frames) && rs.time == old(rs.time) + delta &&
        if frames == [] then
          st == Failed(EmptyRecording) && rs.frameIdx == lastIdx && mode == old(mode) &&
          finishedPlaybackCount == old(finishedPlaybackCount) &&
          lastFrameInputs == old(lastFrameInputs) && thisFrameInputs == old(thisFrameInputs) &&
          thisFrameProperties == old(thisFrameProperties)
        else
          st == Ok && rs.frameIdx == FrameForTime(frames, rs.time) &&
          if rs.time > LengthOf(frames) then
            mode == Recorder.Passthru && InputCleared() && finishedPlaybackCount == old(finishedPlaybackCount) + 1
          else
            mode == old(mode) && finishedPlaybackCount == old(finishedPlaybackCount) &&
            if rs.frameIdx == lastIdx then
              lastFrameInputs == old(lastFrameInputs) && thisFrameInputs == old(thisFrameInputs) &&
              thisFrameProperties == old(thisFrameProperties)
            else
              lastIdx >= 0 &&
              lastFrameInputs == old(thisFrameInputs) &&
              thisFrameInputs == SweepInputs(old(thisFrameInputs), frames, lastIdx + 1, rs.frameIdx + 1) &&
              thisFrameProperties == SweepProperties(old(thisFrameProperties), frames, lastIdx + 1, rs.frameIdx + 1)
    }

    method AdvancePlayback(delta: real) returns (st: Status)
      requires Valid()
      modifies this, Footprint(), inputStateCache, propCache
      ensures Valid() && PlaybackAdvanced(delta, st)
    {
      var rs := currentRecord;
      if rs == null {
        return Failed(NullReference);
      }
      var lastFrameIdx := rs.frameIdx;
      st := rs.AdvanceByTime(delta);
      if st.Failed? {
        return;
      }
      var rec := rs.targetRecording;
      if rs.time > rec.Length() {
        finishedPlaybackCount := finishedPlaybackCount + 1;
        RevertToLive();
        return;
      }
      if rs.frameIdx == lastFrameIdx {
        return;
      }
      lastFrameInputs := thisFrameInputs;
      thisFrameInputs, thisFrameProperties :=
        LatchFrames(rec, lastFrameIdx + 1, rs.frameIdx, thisFrameInputs, thisFrameProperties, inputStateCache, propCache);
    }

    /** The samples of one recorded tick under this component's settings;
      * Recorder.RecordedSamplesLayout describes the groups it is made of. */
    function Samples(live: LiveInput): seq<InputState>
    {
      Recorder.RecordedSamples(recordMouseEvents, recordedButtons, recordedAxes, recordedKeys, keyName, live)
    }

    /** A tick gives one sample per mouse reading (when enabled), button,
      * axis and key, with the key group last, each key stored under its name
      * (keyCode.ToString()), the name GetKeyCode reads back. */
    lemma SamplesStoreKeyNames(live: LiveInput)
      ensures var r := Samples(live);
        |r| == (if recordMouseEvents then 5 else 0) + |recordedButtons| + |recordedAxes| + |recordedKeys| &&
        r[|r| - |recordedKeys|..] == Recorder.KeySamples(recordedKeys, keyName, live)
    {
      Recorder.RecordedSamplesLayout(recordMouseEvents, recordedButtons, recordedAxes, recordedKeys, keyName, live);
    }

    /** The effect of one recorded tick as written: the frame index is one past
      * the appended frame unless the cursor was behind, so the first write of
      * the tick throws and the rest of the tick is skipped. */
    twostate predicate FrameRecorded(deltaTime: real, live: LiveInput, st: Status)
      reads this, Footprint()
    {
      var rs := old(currentRecord);
      currentRecord == rs && mode == old(mode) && isPaused == old(isPaused) &&
      finishedPlaybackCount == old(finishedPlaybackCount) &&
      lastFrameInputs == old(lastFrameInputs) && thisFrameInputs == old(thisFrameInputs) &&
      thisFrameProperties == old(thisFrameProperties) &&
      if rs == null then
        st == Failed(NullReference) && nextPropertiesToRecord == old(nextPropertiesToRecord)
      else
        var frames := old(rs.targetRecording.frames);
        var queue := old(nextPropertiesToRecord);
        rs.time == old(rs.time) + deltaTime && rs.frameIdx == old(rs.frameIdx) + 1 &&
        if !CanAppendAt(frames, rs.time) then
          st == Failed(FrameNotAfterEnd) && rs.targetRecording.frames == frames && nextPropertiesToRecord == queue
        else
          var appended := frames + [EmptyFrame(rs.time)];
          if 0 <= rs.frameIdx < |appended| then
            st == Ok && nextPropertiesToRecord == [] &&
            rs.targetRecording.frames == appended[rs.frameIdx :=
              Recorder.WithProperties(Recorder.WithInputs(appended[rs.frameIdx], Samples(live)), queue)]
          else if Samples(live) != [] then
            st == Failed(FrameOutOfRange) && rs.targetRecording.frames == appended && nextPropertiesToRecord == queue
          else if queue != [] then
            // the dequeue happens before the rejected write
            st == Failed(FrameOutOfRange) && rs.targetRecording.frames == appended && nextPropertiesToRecord == queue[1..]
          else
            st == Ok && rs.targetRecording.frames == appended && nextPropertiesToRecord == []
    }

    method RecordCurrentFrame(deltaTime: real, live: LiveInput) returns (st: Status)
      requires Valid()
      modifies this, Footprint()
      ensures Valid() && FrameRecorded(deltaTime, live, st)
    {
      var rs := currentRecord;
      if rs == null {
        return Failed(NullReference);
      }
      st := rs.AppendNewRecordingFrame(deltaTime);
      if st.Failed? {
        return;
      }
      st := RecordSamples(rs, live);
      if st.Failed? {
        return;
      }
      st := DrainPropertyQueue(rs);
    }

    method RecordSamples(rs: RecordingState, live: LiveInput) returns (st: Status)
      modifies rs.targetRecording
      ensures 0 <= rs.frameIdx < |old(rs.targetRecording.frames)| ==>
        st == Ok &&
        rs.targetRecording.frames == old(rs.targetRecording.frames)[rs.frameIdx :=
          Recorder.WithInputs(old(rs.targetRecording.frames)[rs.frameIdx], Samples(live))]
      ensures !(0 <= rs.frameIdx < |old(rs.targetRecording.frames)|) ==>
        rs.targetRecording.frames == old(rs.targetRecording.frames) &&
        (st == Ok <==> Samples(live) == []) && (st.Failed? ==> st.fault == FrameOutOfRange)
    {
      if 0 <= rs.frameIdx < |rs.targetRecording.frames| {
        RecordSamplesInRange(rs, live);
        st := Ok;
      } else {
        st := RecordSamplesOutOfRange(rs, live);
      }
    }

    method RecordSamplesInRange(rs: RecordingState, live: LiveInput)
      requires 0 <= rs.frameIdx < |rs.targetRecording.frames|
      modifies rs.targetRecording
      ensures rs.targetRecording.frames == old(rs.targetRecording.frames)[rs.frameIdx :=
        Recorder.WithInputs(old(rs.targetRecording.frames)[rs.frameIdx], Samples(live))]
    {
      ghost var mouse := if recordMouseEvents then Recorder.MouseSamples(live) else [];
      ghost var buttons := Recorder.ButtonSamples(recordedButtons, live);
      ghost var axes := Recorder.AxisSamples(recordedAxes, live);
      ghost var frames0 := rs.targetRecording.frames;
      assert frames0[rs.frameIdx].(inputManagerStates := frames0[rs.frameIdx].inputManagerStates) == frames0[rs.frameIdx];
      if recordMouseEvents {
        rs.AddMoreInputsToCurrentFrame(frames0, [], Recorder.MouseSamples(live));
      }
      assert [] + mouse == mouse;
      rs.AddMoreInputsToCurrentFrame(frames0, mouse, Recorder.ButtonSamples(recordedButtons, live));
      rs.AddMoreInputsToCurrentFrame(frames0, mouse + buttons, Recorder.AxisSamples(recordedAxes, live));
      rs.AddMoreInputsToCurrentFrame(frames0, mouse + buttons + axes, Recorder.KeySamples(recordedKeys, keyName, live));
    }

    /** With the cursor outside the recording, the first category that has a
      * sample throws; nothing is written. */
    method RecordSamplesOutOfRange(rs: RecordingState, live: LiveInput) returns (st: Status)
      requires !(0 <= rs.frameIdx < |rs.targetRecording.frames|)
      modifies rs.targetRecording
      ensures rs.targetRecording.frames == old(rs.targetRecording.frames)
      ensures st == Ok <==> Samples(live) == []
      ensures st.Failed? ==> st.fault == FrameOutOfRange
    {
      st := Ok;
      if recordMouseEvents {
        st := rs.AddInputsToCurrentFrame(Recorder.MouseSamples(live));
        if st.Failed? {
          return;
        }
      }
      st := rs.AddInputsToCurrentFrame(Recorder.ButtonSamples(recordedButtons, live));
      if st.Failed? {
        return;
      }
      st := rs.AddInputsToCurrentFrame(Recorder.AxisSamples(recordedAxes, live));
      if st.Failed? {
        return;
      }
      st := rs.AddInputsToCurrentFrame(Recorder.KeySamples(recordedKeys, keyName, live));
    }

    /** The dequeue loop: each property is dequeued before its write, so a
      * rejected write loses that property from the queue. */
    method DrainPropertyQueue(rs: RecordingState) returns (st: Status)
      modifies this`nextPropertiesToRecord, rs.targetRecording
      ensures 0 <= rs.frameIdx < |old(rs.targetRecording.frames)| ==>
        st == Ok && nextPropertiesToRecord == [] &&
        rs.targetRecording.frames == old(rs.targetRecording.frames)[rs.frameIdx :=
          Recorder.WithProperties(old(rs.targetRecording.frames)[rs.frameIdx], old(nextPropertiesToRecord))]
      ensures !(0 <= rs.frameIdx < |old(rs.targetRecording.frames)|) ==>
        rs.targetRecording.frames == old(rs.targetRecording.frames) &&
        (old(nextPropertiesToRecord) == [] ==> st == Ok && nextPropertiesToRecord == []) &&
        (old(nextPropertiesToRecord) != [] ==> st == Failed(FrameOutOfRange) && nextPropertiesToRecord == old(nextPropertiesToRecord)[1..])
    {
      ghost var queue := nextPropertiesToRecord;
      ghost var frames1 := rs.targetRecording.frames;
      ghost var inRange := 0 <= rs.frameIdx < |frames1|;
      while |nextPropertiesToRecord| > 0
        invariant nextPropertiesToRecord == queue[|queue| - |nextPropertiesToRecord|..]
        invariant inRange ==>
          rs.targetRecording.frames
          == frames1[rs.frameIdx := Recorder.WithProperties(frames1[rs.frameIdx], queue[..|queue| - |nextPropertiesToRecord|])]
        invariant !inRange ==> nextPropertiesToRecord == queue && rs.targetRecording.frames == frames1
        decreases |nextPropertiesToRecord|
      {
        ghost var done := |queue| - |nextPropertiesToRecord|;
        var p := nextPropertiesToRecord[0];
        nextPropertiesToRecord := nextPropertiesToRecord[1..];
        st := rs.AddPropertyToCurrentFrame(p);
        if st.Failed? {
          return;
        }
        assert queue[..done + 1][..done] == queue[..done];
      }
      assert queue[..|queue|] == queue;
      return Ok;
    }

    method Update(deltaTime: real, live: LiveInput) returns (st: Status)
      requires Valid()
      modifies this, Footprint(), inputStateCache, propCache
      ensures Valid()
      ensures old(isPaused) || old(mode) == Recorder.Passthru ==> st == Ok && unchanged(this) && unchanged(Footprint())
      ensures !old(isPaused) && old(mode) == Recorder.Playback ==> PlaybackAdvanced(deltaTime, st)
      ensures !old(isPaused) && old(mode) == Recorder.Record ==> FrameRecorded(deltaTime, live, st)
    {
      if isPaused {
        return Ok;
      }
      if mode == Recorder.Playback {
        st := AdvancePlayback(deltaTime);
      } else if mode == Recorder.Record {
        st := RecordCurrentFrame(deltaTime, live);
      } else {
        st := Ok;
      }
    }

    // -------------------------------------------------------------------
    // Input queries

    function GetKey(live: LiveInput, keyName': string): (r: bool)
      reads this
      ensures mode == Recorder.Playback ==> (r <==> Held(thisFrameInputs, keyName'))
      ensures mode != Recorder.Playback ==> r == live.getKey(keyName')
    {
      if mode == Recorder.Playback then keyName' in thisFrameInputs && thisFrameInputs[keyName'].buttonState
      else live.getKey(keyName')
    }

    function GetKeyDown(live: LiveInput, keyName': string): (r: bool)
      reads this
      ensures mode == Recorder.Playback ==> (r <==> RisingEdge(thisFrameInputs, lastFrameInputs, keyName'))
      ensures mode != Recorder.Playback ==> r == live.getKeyDown(keyName')
    {
      if mode == Recorder.Playback then
        var lastFrameButtonDown := keyName' in lastFrameInputs && lastFrameInputs[keyName'].buttonState;
        var thisFrameButtonDown := keyName' in thisFrameInputs && thisFrameInputs[keyName'].buttonState;
        thisFrameButtonDown && !lastFrameButtonDown
      else live.getKeyDown(keyName')
    }

    function GetKeyUp(live: LiveInput, keyName': string): (r: bool)
      reads this
      ensures mode == Recorder.Playback ==> (r <==> FallingEdge(thisFrameInputs, lastFrameInputs, keyName'))
      ensures mode != Recorder.Playback ==> r == live.getKeyUp(keyName')
    {
      if mode == Recorder.Playback then
        var lastFrameButtonDown := keyName' in lastFrameInputs && lastFrameInputs[keyName'].buttonState;
        var thisFrameButtonDown := keyName' in thisFrameInputs && thisFrameInputs[keyName'].buttonState;
        !thisFrameButtonDown && lastFrameButtonDown
      else live.getKeyUp(keyName')
    }

    /** The key-code overloads look the key up under its enumeration name,
      * the id it is recorded under. */
    function GetKeyCode(live: LiveInput, key: KeyCode): (r: bool)
      reads this
      ensures mode == Recorder.Playback ==> (r <==> Held(thisFrameInputs, keyName(key)))
      ensures mode != Recorder.Playback ==> r == live.getKey(keyName(key))
    {
      GetKey(live, keyName(key))
    }

    function GetKeyCodeDown(live: LiveInput, key: KeyCode): (r: bool)
      reads this
      ensures mode == Recorder.Playback ==> (r <==> RisingEdge(thisFrameInputs, lastFrameInputs, keyName(key)))
      ensures mode != Recorder.Playback ==> r == live.getKeyDown(keyName(key))
    {
      GetKeyDown(live, keyName(key))
    }

    function GetKeyCodeUp(live: LiveInput, key: KeyCode): (r: bool)
      reads this
      ensures mode == Recorder.Playback ==> (r <==> FallingEdge(thisFrameInputs, lastFrameInputs, keyName(key)))
      ensures mode != Recorder.Playback ==> r == live.getKeyUp(keyName(key))
    {
      GetKeyUp(live, keyName(key))
    }

    function GetButton(live: LiveInput, buttonName: string): (r: bool)
      reads this
      ensures mode == Recorder.Playback ==> (r <==> Held(thisFrameInputs, buttonName))
      ensures mode != Recorder.Playback ==> r == live.getButton(buttonName)
    {
      if mode == Recorder.Playback then buttonName in thisFrameInputs && thisFrameInputs[buttonName].buttonState
      else live.getButton(buttonName)
    }

    function GetButtonDown(live: LiveInput, buttonName: string): (r: bool)
      reads this
      ensures mode == Recorder.Playback ==> (r <==> RisingEdge(thisFrameInputs, lastFrameInputs, buttonName))
      ensures mode != Recorder.Playback ==> r == live.getKeyDown(buttonName)
    {
      if mode == Recorder.Playback then
        var lastFrameButtonDown := buttonName in lastFrameInputs && lastFrameInputs[buttonName].buttonState;
        var thisFrameButtonDown := buttonName in thisFrameInputs && thisFrameInputs[buttonName].buttonState;
        thisFrameButtonDown && !lastFrameButtonDown
      else live.getKeyDown(buttonName)
    }

    function GetButtonUp(live: LiveInput, buttonName: string): (r: bool)
      reads this
      ensures mode == Recorder.Playback ==> (r <==> FallingEdge(thisFrameInputs, lastFrameInputs, buttonName))
      ensures mode != Recorder.Playback ==> r == live.getKeyUp(buttonName)
    {
      if mode == Recorder.Playback then
        var lastFrameButtonDown := buttonName in lastFrameInputs && lastFrameInputs[buttonName].buttonState;
        var thisFrameButtonDown := buttonName in thisFrameInputs && thisFrameInputs[buttonName].buttonState;
        !thisFrameButtonDown && lastFrameButtonDown
      else live.getKeyUp(buttonName)
    }

    function GetAxis(live: LiveInput, axisName: string): (r: real)
      reads this
      ensures mode == Recorder.Playback && axisName !in thisFrameInputs ==> r == 0.0
      ensures mode == Recorder.Playback && axisName in thisFrameInputs ==> r == thisFrameInputs[axisName].axisValue
      ensures mode != Recorder.Playback ==> r == live.getAxis(axisName)
    {
      if mode == Recorder.Playback then AxisOf(thisFrameInputs, axisName) else live.getAxis(axisName)
    }

    function GetMouseButton(live: LiveInput, buttonNum: int): (r: bool)
      reads this
      ensures mode == Recorder.Playback ==> (r <==> Held(thisFrameInputs, Recorder.GetMouseButtonId(buttonNum)))
      ensures mode != Recorder.Playback ==> r == live.getMouseButton(buttonNum)
    {
      if mode == Recorder.Playback then
        var id := Recorder.GetMouseButtonId(buttonNum);
        id in thisFrameInputs && thisFrameInputs[id].buttonState
      else live.getMouseButton(buttonNum)
    }

    function GetMouseButtonDown(live: LiveInput, buttonNum: int): (r: bool)
      reads this
      ensures mode == Recorder.Playback ==> (r <==> RisingEdge(thisFrameInputs, lastFrameInputs, Recorder.GetMouseButtonId(buttonNum)))
      ensures mode != Recorder.Playback ==> r == live.getMouseButtonDown(buttonNum)
    {
      if mode == Recorder.Playback then
        var buttonId := Recorder.GetMouseButtonId(buttonNum);
        var lastFrameButtonDown := buttonId in lastFrameInputs && lastFrameInputs[buttonId].buttonState;
        var thisFrameButtonDown := buttonId in thisFrameInputs && thisFrameInputs[buttonId].buttonState;
        thisFrameButtonDown && !lastFrameButtonDown
      else live.getMouseButtonDown(buttonNum)
    }

    function GetMouseButtonUp(live: LiveInput, buttonNum: int): (r: bool)
      reads this
      ensures mode == Recorder.Playback ==> (r <==> FallingEdge(thisFrameInputs, lastFrameInputs, Recorder.GetMouseButtonId(buttonNum)))
      ensures mode != Recorder.Playback ==> r == live.getMouseButtonUp(buttonNum)
    {
      if mode == Recorder.Playback then
        var buttonId := Recorder.GetMouseButtonId(buttonNum);
        var lastFrameButtonDown := buttonId in lastFrameInputs && lastFrameInputs[buttonId].buttonState;
        var thisFrameButtonDown := buttonId in thisFrameInputs && thisFrameInputs[buttonId].buttonState;
        !thisFrameButtonDown && lastFrameButtonDown
      else live.getMouseButtonUp(buttonNum)
    }

    function MousePosition(live: LiveInput): (p: Vector3)
      reads this
      ensures mode == Recorder.Playback ==>
        p == Vector3(AxisOf(thisFrameInputs, Recorder.MousePosXId), AxisOf(thisFrameInputs, Recorder.MousePosYId), 0.0)
      ensures mode != Recorder.Playback ==> p == live.mousePosition
    {
      if mode == Recorder.Playback then
        var mouseX := if Recorder.MousePosXId in thisFrameInputs then thisFrameInputs[Recorder.MousePosXId].axisValue else 0.0;
        var mouseY := if Recorder.MousePosYId in thisFrameInputs then thisFrameInputs[Recorder.MousePosYId].axisValue else 0.0;
        Vector3(mouseX, mouseY, 0.0)
      else live.mousePosition
    }

    function GetProperty(propertyName: string): (r: string)
      reads this
      ensures propertyName in thisFrameProperties ==> r == thisFrameProperties[propertyName].value
      ensures propertyName !in thisFrameProperties ==> r == ""
    {
      if propertyName in thisFrameProperties then thisFrameProperties[propertyName].value else ""
    }
  }

  // ---------------------------------------------------------------------
  // Scenarios that exhibit the behaviour of this copy as written

  /** Record() on a fresh component, with no cursor, throws instead of
    * starting a recording. */
  method RecordWithoutCursorFaults() returns (st: Status, m: Mode)
    ensures st == Failed(NullReference) && m == Recorder.Passthru
  {
    var vcr := new InputVCR([], [], [], false, k => "");
    st := vcr.Record();
    m := vcr.mode;
  }

  /** Record() after a recorded tick, which is meant to resume the recording,
    * discards it. */
  method ResumeDiscardsRecording(dt: real, live: LiveInput) returns (frames: seq<Frame>)
    ensures frames == []
  {
    var vcr := new InputVCR([], [], [], false, k => "");
    var st := vcr.RecordNew();
    st := vcr.Update(dt, live);
    st := vcr.Record();
    frames := vcr.currentRecord.targetRecording.frames;
  }

  /** The first recorded tick of a new recording with one recorded button:
    * the frame is appended but the cursor is already one past it, so the
    * sample is rejected and the frame stays empty. */
  method FirstRecordedTickFaults(b: string, dt: real, live: LiveInput) returns (st: Status, frames: seq<Frame>)
    ensures st == Failed(FrameOutOfRange) && frames == [EmptyFrame(dt)]
  {
    var vcr := new InputVCR([b], [], [], false, k => "");
    st := vcr.RecordNew();
    assert Recorder.ButtonSamples([b], live) == [ButtonInput(b, live.getButton(b))];
    assert vcr.Samples(live) != [];
    st := vcr.Update(dt, live);
    frames := vcr.currentRecord.targetRecording.frames;
  }
}
