/** The current recorder component: a cursor over a Recording, a mode
  * machine (Passthru, Record, Playback) with an orthogonal pause flag, the
  * per-tick step that either records a frame from live input or advances
  * playback and latches every crossed frame, and the input queries that
  * answer from the latched snapshots during playback and from live input
  * otherwise. */
module Recorder {
  import opened Common
  import Keyed
  import opened Timeline
  import opened Latch

  datatype Mode = Passthru | Record | Playback

  const MousePosXId: string := "MOUSE_POSITION_X"
  const MousePosYId: string := "MOUSE_POSITION_Y"
  const MouseButtonPrefix: string := "MOUSE_BUTTON_"

  /** The recorded id of a mouse button: the prefix followed by its decimal number. */
  function GetMouseButtonId(buttonNumber: int): (id: string)
    ensures |id| > |MouseButtonPrefix| && id[..|MouseButtonPrefix|] == MouseButtonPrefix
    ensures id != MousePosXId && id != MousePosYId
  {
    var id := MouseButtonPrefix + IntToString(buttonNumber);
    assert id[6] == MouseButtonPrefix[6] != MousePosXId[6];
    id
  }

  /** The frame with every state of states upserted into its inputs, in order. */
  function WithInputs(frame: Frame, states: seq<InputState>): Frame
  {
    frame.(inputManagerStates := Keyed.UpsertAll(frame.inputManagerStates, InputKey, states))
  }

  /** The frame with every queued property upserted into it, in order. */
  function WithProperties(frame: Frame, props: seq<FrameProperty>): Frame
  {
    frame.(syncedProperties := Keyed.UpsertAll(frame.syncedProperties, PropertyKey, props))
  }

  /** The mouse samples taken when mouse events are recorded: buttons 0, 1, 2
    * and the pointer's x and y as axes. */
  function MouseSamples(live: LiveInput): (r: seq<InputState>)
    ensures |r| == 5
    ensures forall i :: 0 <= i < 3 ==> r[i].inputId == GetMouseButtonId(i) && r[i].buttonState == live.getMouseButton(i)
    ensures r[3].inputId == MousePosXId && r[3].axisValue == live.mousePosition.x
    ensures r[4].inputId == MousePosYId && r[4].axisValue == live.mousePosition.y
  {
    [ButtonInput(GetMouseButtonId(0), live.getMouseButton(0)),
     ButtonInput(GetMouseButtonId(1), live.getMouseButton(1)),
     ButtonInput(GetMouseButtonId(2), live.getMouseButton(2)),
     AxisInput(MousePosXId, live.mousePosition.x),
     AxisInput(MousePosYId, live.mousePosition.y)]
  }

  /** One sample per configured button, under the button's own name. */
  function ButtonSamples(buttons: seq<string>, live: LiveInput): (r: seq<InputState>)
    ensures |r| == |buttons|
    ensures forall i :: 0 <= i < |r| ==>
      r[i].inputId == buttons[i] && r[i].buttonState == live.getButton(buttons[i]) && r[i].axisValue == 0.0
  {
    var r := seq(|buttons|, i requires 0 <= i < |buttons| => ButtonInput(buttons[i], live.getButton(buttons[i])));
    assert forall i :: 0 <= i < |r| ==> r[i] == ButtonInput(buttons[i], live.getButton(buttons[i]));
    r
  }

  /** One sample per configured axis, under the axis's own name, never held. */
  function AxisSamples(axes: seq<string>, live: LiveInput): (r: seq<InputState>)
    ensures |r| == |axes|
    ensures forall i :: 0 <= i < |r| ==>
      r[i].inputId == axes[i] && !r[i].buttonState && r[i].axisValue == live.getAxis(axes[i])
  {
    var r := seq(|axes|, i requires 0 <= i < |axes| => AxisInput(axes[i], live.getAxis(axes[i])));
    assert forall i :: 0 <= i < |r| ==> r[i] == AxisInput(axes[i], live.getAxis(axes[i]));
    r
  }

  /** One sample per configured key, under the key's id. */
  function KeySamples(keys: seq<KeyCode>, keyCodeId: KeyCode -> string, live: LiveInput): (r: seq<InputState>)
    ensures |r| == |keys|
    ensures forall i :: 0 <= i < |r| ==>
      r[i].inputId == keyCodeId(keys[i]) && r[i].buttonState == live.getKeyCode(keys[i]) && r[i].axisValue == 0.0
  {
    seq(|keys|, i requires 0 <= i < |keys| => ButtonInput(keyCodeId(keys[i]), live.getKeyCode(keys[i])))
  }

  /** Every sample one recorded tick writes, in the order it writes them. */
  function RecordedSamples(recordMouseEvents: bool, buttons: seq<string>, axes: seq<string>,
                           keys: seq<KeyCode>, keyCodeId: KeyCode -> string, live: LiveInput): seq<InputState>
  {
    (if recordMouseEvents then MouseSamples(live) else [])
      + ButtonSamples(buttons, live) + AxisSamples(axes, live) + KeySamples(keys, keyCodeId, live)
  }

  /** Where each group of a tick's samples sits: the mouse group (when
    * enabled) first, then the buttons, the axes and the keys, each group in
    * its configured order. */
  lemma RecordedSamplesLayout(recordMouseEvents: bool, buttons: seq<string>, axes: seq<string>,
                              keys: seq<KeyCode>, keyCodeId: KeyCode -> string, live: LiveInput)
    ensures var r := RecordedSamples(recordMouseEvents, buttons, axes, keys, keyCodeId, live);
      var m := if recordMouseEvents then 5 else 0;
      var b, a := m + |buttons|, m + |buttons| + |axes|;
      |r| == a + |keys| &&
      r[..m] == (if recordMouseEvents then MouseSamples(live) else []) &&
      r[m..b] == ButtonSamples(buttons, live) && r[b..a] == AxisSamples(axes, live) &&
      r[a..] == KeySamples(keys, keyCodeId, live)
  {
    var mouse := if recordMouseEvents then MouseSamples(live) else [];
    var bs, ax, ks := ButtonSamples(buttons, live), AxisSamples(axes, live), KeySamples(keys, keyCodeId, live);
    Slices4(mouse, bs, ax, ks);
  }

  lemma Slices4<T>(w: seq<T>, x: seq<T>, y: seq<T>, z: seq<T>)
    ensures var r := w + x + y + z;
      r[..|w|] == w && r[|w|..|w| + |x|] == x && r[|w| + |x|..|w| + |x| + |y|] == y && r[|w| + |x| + |y|..] == z
  {
  }

  /** The playback/record cursor over one recording. */
  class RecordingState {
    const targetRecording: Recording
    var time: real
    var frameIdx: int

    constructor (recording: Recording)
      ensures targetRecording == recording && time == 0.0 && frameIdx == -1
    {
      targetRecording := recording;
      time := 0.0;
      frameIdx := -1;
    }

    method SkipToTime(newTime: real) returns (st: Status)
      modifies this
      ensures time == Clamp(newTime, 0.0, LengthOf(targetRecording.frames))
      ensures st == Ok <==> |targetRecording.frames| > 0
      ensures st.Failed? ==> st.fault == EmptyRecording && frameIdx == old(frameIdx)
      ensures st == Ok ==> frameIdx == FrameForTime(targetRecording.frames, time)
    {
      time := Clamp(newTime, 0.0, targetRecording.Length());
      var r := targetRecording.GetFrameForTime(time);
      if r.Failure? {
        return Failed(r.fault);
      }
      frameIdx := r.value;
      return Ok;
    }

    method AdvanceByTime(deltaTime: real) returns (st: Status)
      modifies this
      ensures time == old(time) + deltaTime
      ensures st == Ok <==> |targetRecording.frames| > 0
      ensures st.Failed? ==> st.fault == EmptyRecording && frameIdx == old(frameIdx)
      ensures st == Ok ==> frameIdx == FrameForTime(targetRecording.frames, time)
    {
      time := time + deltaTime;
      var r := targetRecording.GetFrameForTime(time);
      if r.Failure? {
        return Failed(r.fault);
      }
      frameIdx := r.value;
      return Ok;
    }

    /** Moves the cursor on by deltaTime and appends a frame there; the cursor
      * then points at the new last frame. */
    method AppendNewRecordingFrame(deltaTime: real) returns (st: Status)
      modifies this, targetRecording
      ensures time == old(time) + deltaTime
      ensures st == Ok <==> CanAppendAt(old(targetRecording.frames), time)
      ensures st.Failed? ==> st.fault == FrameNotAfterEnd && frameIdx == old(frameIdx)
                             && targetRecording.frames == old(targetRecording.frames)
      ensures st == Ok ==> targetRecording.frames == old(targetRecording.frames) + [EmptyFrame(time)]
                           && frameIdx == |targetRecording.frames| - 1
    {
      time := time + deltaTime;
      st := targetRecording.AddFrame(time);
      if st.Failed? {
        return;
      }
      frameIdx := targetRecording.FrameCount() - 1;
    }

    method AddInputToCurrentFrame(inputState: InputState) returns (st: Status)
      modifies targetRecording
      ensures st == Ok <==> 0 <= frameIdx < |old(targetRecording.frames)|
      ensures st.Failed? ==> st.fault == FrameOutOfRange && targetRecording.frames == old(targetRecording.frames)
      ensures st == Ok ==> targetRecording.frames
                           == old(targetRecording.frames)[frameIdx := WithInput(old(targetRecording.frames)[frameIdx], inputState)]
    {
      st := targetRecording.AddInput(frameIdx, inputState);
    }

    method AddPropertyToCurrentFrame(frameProperty: FrameProperty) returns (st: Status)
      modifies targetRecording
      ensures st == Ok <==> 0 <= frameIdx < |old(targetRecording.frames)|
      ensures st.Failed? ==> st.fault == FrameOutOfRange && targetRecording.frames == old(targetRecording.frames)
      ensures st == Ok ==> targetRecording.frames
                           == old(targetRecording.frames)[frameIdx := WithProperty(old(targetRecording.frames)[frameIdx], frameProperty)]
    {
      st := targetRecording.AddProperty(frameIdx, frameProperty);
    }

    /** AddInputToCurrentFrame for each state in turn (one sampled list of a
      * recorded tick). */
    method AddInputsToCurrentFrame(states: seq<InputState>)
      requires 0 <= frameIdx < |targetRecording.frames|
      modifies targetRecording
      ensures targetRecording.frames
              == old(targetRecording.frames)[frameIdx := WithInputs(old(targetRecording.frames)[frameIdx], states)]
    {
      var i := 0;
      while i < |states|
        invariant 0 <= i <= |states|
        invariant targetRecording.frames
                  == old(targetRecording.frames)[frameIdx := WithInputs(old(targetRecording.frames)[frameIdx], states[..i])]
      {
        var st := AddInputToCurrentFrame(states[i]);
        assert states[..i + 1][..i] == states[..i];
        i := i + 1;
      }
      assert states[..|states|] == states;
    }

    /** One more batch of writes into a frame that already holds the batches
      * done: the frame then holds all of them, in order. */
    method AddMoreInputsToCurrentFrame(ghost frames0: seq<Frame>, ghost done: seq<InputState>, states: seq<InputState>)
      requires 0 <= frameIdx < |frames0|
      requires targetRecording.frames == frames0[frameIdx := WithInputs(frames0[frameIdx], done)]
      modifies targetRecording
      ensures targetRecording.frames == frames0[frameIdx := WithInputs(frames0[frameIdx], done + states)]
    {
      AddInputsToCurrentFrame(states);
      Keyed.UpsertAllAppend(frames0[frameIdx].inputManagerStates, InputKey, done, states);
    }

    method ClearRecordingAfterCurrentTime()
      modifies targetRecording
      ensures targetRecording.frames == Truncated(old(targetRecording.frames), frameIdx)
    {
      targetRecording.ClearFrames(frameIdx);
    }
  }

  class InputVCRRecorder {
    // configuration, fixed once the component is set up
    const recordedButtons: seq<string>
    const recordedAxes: seq<string>
    const recordedKeys: seq<KeyCode>
    const recordMouseEvents: bool
    /** The id under which a key code is recorded; the engine's key-name table
      * is not part of this model. */
    const keyCodeId: KeyCode -> string

    var mode: Mode
    var isPaused: bool
    var recordingState: RecordingState?
    var nextPropertiesToRecord: seq<FrameProperty>
    var lastFrameInputs: InputTable
    var thisFrameInputs: InputTable
    var thisFrameProperties: PropertyTable
    /** Number of times the finishedPlayback event has been raised. */
    ghost var finishedPlaybackCount: nat

    const inputStateCache: Buffer<InputState>
    const propCache: Buffer<FrameProperty>

    ghost function Footprint(): set<object>
      reads this
    {
      if recordingState == null then {} else {recordingState, recordingState.targetRecording}
    }

    ghost predicate Valid()
      reads this, Footprint()
    {
      recordingState != null ==> recordingState.frameIdx >= -1
    }

    constructor (buttons: seq<string>, axes: seq<string>, keys: seq<KeyCode>, recordMouse: bool,
                 keyId: KeyCode -> string)
      ensures Valid()
      ensures recordedButtons == buttons && recordedAxes == axes && recordedKeys == keys
      ensures recordMouseEvents == recordMouse && keyCodeId == keyId
      ensures mode == Passthru && !isPaused && recordingState == null && nextPropertiesToRecord == []
      ensures lastFrameInputs == map[] && thisFrameInputs == map[] && thisFrameProperties == map[]
      ensures finishedPlaybackCount == 0
      ensures fresh(inputStateCache) && fresh(propCache)
    {
      recordedButtons, recordedAxes, recordedKeys := buttons, axes, keys;
      recordMouseEvents, keyCodeId := recordMouse, keyId;
      mode, isPaused, recordingState := Passthru, false, null;
      nextPropertiesToRecord := [];
      lastFrameInputs, thisFrameInputs, thisFrameProperties := map[], map[], map[];
      finishedPlaybackCount := 0;
      inputStateCache := new Buffer<InputState>();
      propCache := new Buffer<FrameProperty>();
    }

    function CurrentRecord(): Recording?
      reads this
    {
      if recordingState == null then null else recordingState.targetRecording
    }

    function CurrentPlaybackTime(): real
      reads this, Footprint()
    {
      if recordingState == null then 0.0 else recordingState.time
    }

    predicate InputCleared()
      reads this
    {
      lastFrameInputs == map[] && thisFrameInputs == map[] && thisFrameProperties == map[]
    }

    // -------------------------------------------------------------------
    // Mode control

    /** The effect of Record(forceNewRecording). */
    twostate predicate RecordingStarted(forceNewRecording: bool)
      reads this, Footprint()
    {
      var rs := old(recordingState);
      mode == Mode.Record && !isPaused && InputCleared() && recordingState != null &&
      finishedPlaybackCount == old(finishedPlaybackCount) &&
      if forceNewRecording || rs == null then
        fresh(recordingState) && fresh(recordingState.targetRecording) &&
        recordingState.targetRecording.frames == [] &&
        recordingState.time == 0.0 && recordingState.frameIdx == -1 &&
        nextPropertiesToRecord == []
      else
        recordingState == rs &&
        rs.targetRecording.frames == Truncated(old(rs.targetRecording.frames), old(rs.frameIdx) + 1) &&
        rs.time == old(rs.time) && rs.frameIdx == old(rs.frameIdx) &&
        nextPropertiesToRecord == old(nextPropertiesToRecord)
    }

    method StartRecording(forceNewRecording: bool)
      requires Valid()
      modifies this, Footprint()
      ensures Valid() && RecordingStarted(forceNewRecording)
    {
      if forceNewRecording || recordingState == null {
        var rec := new Recording();
        recordingState := new RecordingState(rec);
        nextPropertiesToRecord := [];
      } else {
        recordingState.targetRecording.ClearFrames(recordingState.frameIdx + 1);
      }
      mode := Mode.Record;
      isPaused := false;
      ClearInput();
    }

    /** Record(): keep the recording up to the cursor's frame and append after it. */
    method Record()
      requires Valid()
      modifies this, Footprint()
      ensures Valid() && RecordingStarted(false)
    {
      StartRecording(false);
    }

    method RecordNew()
      requires Valid()
      modifies this, Footprint()
      ensures Valid() && RecordingStarted(true)
    {
      StartRecording(true);
    }

    method Play()
      modifies this
      ensures mode == Playback && !isPaused
      ensures old(mode) != Playback ==> InputCleared()
      ensures old(mode) == Playback ==> lastFrameInputs == old(lastFrameInputs) && thisFrameInputs == old(thisFrameInputs)
                                        && thisFrameProperties == old(thisFrameProperties)
      ensures recordingState == old(recordingState) && nextPropertiesToRecord == old(nextPropertiesToRecord)
      ensures finishedPlaybackCount == old(finishedPlaybackCount)
    {
      if mode != Playback {
        ClearInput();
        mode := Playback;
      }
      isPaused := false;
    }

    /** Plays record from startPlaybackFromTime; an empty recording makes the
      * seek throw after the cursor has been replaced. The pause flag is kept. */
    method PlayNew(record: Recording, startPlaybackFromTime: real) returns (st: Status)
      modifies this
      ensures Valid()
      ensures recordingState != null && fresh(recordingState) && recordingState.targetRecording == record
      ensures recordingState.time == Clamp(startPlaybackFromTime, 0.0, LengthOf(record.frames))
      ensures st == Ok <==> |record.frames| > 0
      ensures st.Failed? ==> st.fault == EmptyRecording && recordingState.frameIdx == -1 && mode == old(mode)
                             && thisFrameInputs == old(thisFrameInputs) && lastFrameInputs == old(lastFrameInputs)
                             && thisFrameProperties == old(thisFrameProperties)
      ensures st == Ok ==> recordingState.frameIdx == FrameForTime(record.frames, recordingState.time)
                           && mode == Playback && InputCleared()
      ensures isPaused == old(isPaused) && nextPropertiesToRecord == old(nextPropertiesToRecord)
      ensures finishedPlaybackCount == old(finishedPlaybackCount)
    {
      recordingState := new RecordingState(record);
      st := recordingState.SkipToTime(startPlaybackFromTime);
      if st.Failed? {
        return;
      }
      ClearInput();
      mode := Playback;
    }

    method Pause()
      modifies this`isPaused
      ensures isPaused
    {
      isPaused := true;
    }

    method RevertToPassthrough()
      modifies this`mode, this`lastFrameInputs, this`thisFrameInputs, this`thisFrameProperties
      ensures mode == Passthru && InputCleared()
    {
      mode := Passthru;
      ClearInput();
    }

    method ClearInput()
      modifies this`lastFrameInputs, this`thisFrameInputs, this`thisFrameProperties
      ensures InputCleared()
    {
      thisFrameInputs := map[];
      lastFrameInputs := map[];
      thisFrameProperties := map[];
    }

    /** The effect of assigning CurrentPlaybackTime := value: a seek, and in
      * Record mode a truncation from the frame sought. */
    twostate predicate PlaybackTimeSet(value: real, st: Status)
      reads this, Footprint()
    {
      var rs := old(recordingState);
      recordingState == rs &&
      if rs == null then st == Ok
      else
        var frames := old(rs.targetRecording.frames);
        rs.time == Clamp(value, 0.0, LengthOf(frames)) &&
        if frames == [] then
          st == Failed(EmptyRecording) && rs.frameIdx == old(rs.frameIdx) && rs.targetRecording.frames == frames
        else
          st == Ok && rs.frameIdx == FrameForTime(frames, rs.time) &&
          rs.targetRecording.frames == if mode == Mode.Record then Truncated(frames, rs.frameIdx) else frames
    }

    method SetCurrentPlaybackTime(value: real) returns (st: Status)
      requires Valid()
      modifies Footprint()
      ensures Valid() && PlaybackTimeSet(value, st)
    {
      if recordingState == null {
        return Ok;
      }
      st := recordingState.SkipToTime(value);
      if st.Failed? {
        return;
      }
      if mode == Mode.Record {
        recordingState.targetRecording.ClearFrames(recordingState.frameIdx);
      }
    }

    method RewindToStart() returns (st: Status)
      requires Valid()
      modifies Footprint()
      ensures Valid() && PlaybackTimeSet(0.0, st)
    {
      st := SetCurrentPlaybackTime(0.0);
    }

    method SaveProperty(propertyName: string, propertyValue: string)
      modifies this`nextPropertiesToRecord
      ensures nextPropertiesToRecord == Enqueued(old(nextPropertiesToRecord), FrameProperty(propertyName, propertyValue))
    {
      var frameProp := FrameProperty(propertyName, propertyValue);
      if frameProp !in nextPropertiesToRecord {
        nextPropertiesToRecord := nextPropertiesToRecord + [frameProp];
      }
    }

    // -------------------------------------------------------------------
    // The per-tick step

    /** The effect of one playback tick of delta seconds. */
    twostate predicate PlaybackAdvanced(delta: real, st: Status)
      reads this, Footprint()
    {
      var rs := old(recordingState);
      recordingState == rs && isPaused == old(isPaused) &&
      nextPropertiesToRecord == old(nextPropertiesToRecord) &&
      if rs == null then
        st == Failed(NullReference) && mode == old(mode) && finishedPlaybackCount == old(finishedPlaybackCount) &&
        lastFrameInputs == old(lastFrameInputs) && thisFrameInputs == old(thisFrameInputs) &&
        thisFrameProperties == old(thisFrameProperties)
      else
        var frames := rs.targetRecording.frames;
        var lastIdx := old(rs.frameIdx);
        frames == old(rs.targetRecording.frames) && rs.time == old(rs.time) + delta &&
        if frames == [] then
          st == Failed(EmptyRecording) && rs.frameIdx == lastIdx && mode == old(mode) &&
          finishedPlaybackCount == old(finishedPlaybackCount) &&
          lastFrameInputs == old(lastFrameInputs) && thisFrameInputs == old(thisFrameInputs) &&
          thisFrameProperties == old(thisFrameProperties)
        else
          st == Ok && rs.frameIdx == FrameForTime(frames, rs.time) &&
          if rs.time > LengthOf(frames) then
            // the end of the recording: finishedPlayback is raised once
            mode == Passthru && InputCleared() && finishedPlaybackCount == old(finishedPlaybackCount) + 1
          else
            mode == old(mode) && finishedPlaybackCount == old(finishedPlaybackCount) &&
            if rs.frameIdx == lastIdx then
              lastFrameInputs == old(lastFrameInputs) && thisFrameInputs == old(thisFrameInputs) &&
              thisFrameProperties == old(thisFrameProperties)
            else
              lastIdx >= -1 &&
              lastFrameInputs == old(thisFrameInputs) &&
              thisFrameInputs == SweepInputs(old(thisFrameInputs), frames, lastIdx + 1, rs.frameIdx + 1) &&
              thisFrameProperties == SweepProperties(old(thisFrameProperties), frames, lastIdx + 1, rs.frameIdx + 1)
    }

    method AdvancePlayback(delta: real) returns (st: Status)
      requires Valid()
      modifies this, Footprint(), inputStateCache, propCache
      ensures Valid() && PlaybackAdvanced(delta, st)
    {
      var rs := recordingState;
      if rs == null {
        return Failed(NullReference);
      }
      var lastFrameIdx := rs.frameIdx;
      st := rs.AdvanceByTime(delta);
      if st.Failed? {
        return;
      }
      var rec := rs.targetRecording;
      if rs.time > rec.Length() {
        finishedPlaybackCount := finishedPlaybackCount + 1;
        RevertToPassthrough();
        return;
      }
      if rs.frameIdx == lastFrameIdx {
        return;
      }
      lastFrameInputs := thisFrameInputs;
      thisFrameInputs, thisFrameProperties :=
        LatchFrames(rec, lastFrameIdx + 1, rs.frameIdx, thisFrameInputs, thisFrameProperties, inputStateCache, propCache);
    }

    /** The effect of one recorded tick of deltaTime seconds with the given
      * live input. */
    twostate predicate FrameRecorded(deltaTime: real, live: LiveInput, st: Status)
      reads this, Footprint()
    {
      var rs := old(recordingState);
      recordingState == rs && mode == old(mode) && isPaused == old(isPaused) &&
      finishedPlaybackCount == old(finishedPlaybackCount) &&
      lastFrameInputs == old(lastFrameInputs) && thisFrameInputs == old(thisFrameInputs) &&
      thisFrameProperties == old(thisFrameProperties) &&
      if rs == null then
        st == Failed(NullReference) && nextPropertiesToRecord == old(nextPropertiesToRecord)
      else
        var frames := old(rs.targetRecording.frames);
        rs.time == old(rs.time) + deltaTime &&
        if !CanAppendAt(frames, rs.time) then
          st == Failed(FrameNotAfterEnd) && rs.targetRecording.frames == frames &&
          rs.frameIdx == old(rs.frameIdx) && nextPropertiesToRecord == old(nextPropertiesToRecord)
        else
          st == Ok && nextPropertiesToRecord == [] && rs.frameIdx == |frames| &&
          rs.targetRecording.frames == frames + [Frame(rs.time,
            Keyed.UpsertAll([], InputKey, RecordedSamples(recordMouseEvents, recordedButtons, recordedAxes, recordedKeys, keyCodeId, live)),
            Keyed.UpsertAll([], PropertyKey, old(nextPropertiesToRecord)))]
    }

    method RecordCurrentFrame(deltaTime: real, live: LiveInput) returns (st: Status)
      requires Valid()
      modifies this, Footprint()
      ensures Valid() && FrameRecorded(deltaTime, live, st)
    {
      var rs := recordingState;
      if rs == null {
        return Failed(NullReference);
      }
      st := rs.AppendNewRecordingFrame(deltaTime);
      if st.Failed? {
        return;
      }
      RecordSamples(rs, live);
      DrainPropertyQueue(rs);
    }

    /** The sampling part of RecordCurrentFrame: mouse (when enabled), then
      * buttons, axes and keys are written into the cursor's frame in that order. */
    method RecordSamples(rs: RecordingState, live: LiveInput)
      requires 0 <= rs.frameIdx < |rs.targetRecording.frames|
      modifies rs.targetRecording
      ensures rs.targetRecording.frames == old(rs.targetRecording.frames)[rs.frameIdx :=
        WithInputs(old(rs.targetRecording.frames)[rs.frameIdx],
                   RecordedSamples(recordMouseEvents, recordedButtons, recordedAxes, recordedKeys, keyCodeId, live))]
    {
      ghost var mouse := if recordMouseEvents then MouseSamples(live) else [];
      ghost var buttons := ButtonSamples(recordedButtons, live);
      ghost var axes := AxisSamples(recordedAxes, live);
      ghost var frames0 := rs.targetRecording.frames;
      assert frames0[rs.frameIdx].(inputManagerStates := frames0[rs.frameIdx].inputManagerStates) == frames0[rs.frameIdx];
      if recordMouseEvents {
        rs.AddMoreInputsToCurrentFrame(frames0, [], MouseSamples(live));
      }
      assert [] + mouse == mouse;
      rs.AddMoreInputsToCurrentFrame(frames0, mouse, ButtonSamples(recordedButtons, live));
      rs.AddMoreInputsToCurrentFrame(frames0, mouse + buttons, AxisSamples(recordedAxes, live));
      rs.AddMoreInputsToCurrentFrame(frames0, mouse + buttons + axes, KeySamples(recordedKeys, keyCodeId, live));
    }

    /** The dequeue loop of RecordCurrentFrame: every queued property is
      * written into the cursor's frame, oldest first, and the queue ends empty. */
    method DrainPropertyQueue(rs: RecordingState)
      requires 0 <= rs.frameIdx < |rs.targetRecording.frames|
      modifies this`nextPropertiesToRecord, rs.targetRecording
      ensures nextPropertiesToRecord == []
      ensures rs.targetRecording.frames == old(rs.targetRecording.frames)[rs.frameIdx :=
        WithProperties(old(rs.targetRecording.frames)[rs.frameIdx], old(nextPropertiesToRecord))]
    {
      ghost var queue := nextPropertiesToRecord;
      ghost var frames1 := rs.targetRecording.frames;
      while |nextPropertiesToRecord| > 0
        invariant nextPropertiesToRecord == queue[|queue| - |nextPropertiesToRecord|..]
        invariant rs.targetRecording.frames
                  == frames1[rs.frameIdx := WithProperties(frames1[rs.frameIdx], queue[..|queue| - |nextPropertiesToRecord|])]
        decreases |nextPropertiesToRecord|
      {
        ghost var done := |queue| - |nextPropertiesToRecord|;
        var p := nextPropertiesToRecord[0];
        nextPropertiesToRecord := nextPropertiesToRecord[1..];
        var added := rs.AddPropertyToCurrentFrame(p);
        assert queue[..done + 1][..done] == queue[..done];
      }
      assert queue[..|queue|] == queue;
    }

    /** The effect of Update: nothing while paused or passing live input through. */
    method Update(deltaTime: real, live: LiveInput) returns (st: Status)
      requires Valid()
      modifies this, Footprint(), inputStateCache, propCache
      ensures Valid()
      ensures old(isPaused) || old(mode) == Passthru ==> st == Ok && unchanged(this) && unchanged(Footprint())
      ensures !old(isPaused) && old(mode) == Playback ==> PlaybackAdvanced(deltaTime, st)
      ensures !old(isPaused) && old(mode) == Mode.Record ==> FrameRecorded(deltaTime, live, st)
    {
      if isPaused {
        return Ok;
      }
      if mode == Playback {
        st := AdvancePlayback(deltaTime);
      } else if mode == Mode.Record {
        st := RecordCurrentFrame(deltaTime, live);
      } else {
        st := Ok;
      }
    }

    // -------------------------------------------------------------------
    // Input queries: latched snapshots in Playback, live input otherwise

    function GetKey(live: LiveInput, keyName: string): (r: bool)
      reads this
      ensures mode == Playback ==> (r <==> Held(thisFrameInputs, keyName))
      ensures mode != Playback ==> r == live.getKey(keyName)
    {
      if mode == Playback then keyName in thisFrameInputs && thisFrameInputs[keyName].buttonState
      else live.getKey(keyName)
    }

    function GetKeyDown(live: LiveInput, keyName: string): (r: bool)
      reads this
      ensures mode == Playback ==> (r <==> RisingEdge(thisFrameInputs, lastFrameInputs, keyName))
      ensures mode != Playback ==> r == live.getKeyDown(keyName)
    {
      if mode == Playback then
        var lastFrameButtonDown := keyName in lastFrameInputs && lastFrameInputs[keyName].buttonState;
        var thisFrameButtonDown := keyName in thisFrameInputs && thisFrameInputs[keyName].buttonState;
        thisFrameButtonDown && !lastFrameButtonDown
      else live.getKeyDown(keyName)
    }

    function GetKeyUp(live: LiveInput, keyName: string): (r: bool)
      reads this
      ensures mode == Playback ==> (r <==> FallingEdge(thisFrameInputs, lastFrameInputs, keyName))
      ensures mode != Playback ==> r == live.getKeyUp(keyName)
    {
      if mode == Playback then
        var lastFrameButtonDown := keyName in lastFrameInputs && lastFrameInputs[keyName].buttonState;
        var thisFrameButtonDown := keyName in thisFrameInputs && thisFrameInputs[keyName].buttonState;
        !thisFrameButtonDown && lastFrameButtonDown
      else live.getKeyUp(keyName)
    }

    /** The key-code overloads answer under the key's recorded id. */
    function GetKeyCode(live: LiveInput, key: KeyCode): (r: bool)
      reads this
      ensures mode == Playback ==> (r <==> Held(thisFrameInputs, keyCodeId(key)))
      ensures mode != Playback ==> r == live.getKey(keyCodeId(key))
    {
      GetKey(live, keyCodeId(key))
    }

    function GetKeyCodeDown(live: LiveInput, key: KeyCode): (r: bool)
      reads this
      ensures mode == Playback ==> (r <==> RisingEdge(thisFrameInputs, lastFrameInputs, keyCodeId(key)))
      ensures mode != Playback ==> r == live.getKeyDown(keyCodeId(key))
    {
      GetKeyDown(live, keyCodeId(key))
    }

    function GetKeyCodeUp(live: LiveInput, key: KeyCode): (r: bool)
      reads this
      ensures mode == Playback ==> (r <==> FallingEdge(thisFrameInputs, lastFrameInputs, keyCodeId(key)))
      ensures mode != Playback ==> r == live.getKeyUp(keyCodeId(key))
    {
      GetKeyUp(live, keyCodeId(key))
    }

    function GetButton(live: LiveInput, buttonName: string): (r: bool)
      reads this
      ensures mode == Playback ==> (r <==> Held(thisFrameInputs, buttonName))
      ensures mode != Playback ==> r == live.getButton(buttonName)
    {
      if mode == Playback then buttonName in thisFrameInputs && thisFrameInputs[buttonName].buttonState
      else live.getButton(buttonName)
    }

    /** Outside playback this forwards to the live key-down query, not the
      * button-down one. */
    function GetButtonDown(live: LiveInput, buttonName: string): (r: bool)
      reads this
      ensures mode == Playback ==> (r <==> RisingEdge(thisFrameInputs, lastFrameInputs, buttonName))
      ensures mode != Playback ==> r == live.getKeyDown(buttonName)
    {
      if mode == Playback then
        var lastFrameButtonDown := buttonName in lastFrameInputs && lastFrameInputs[buttonName].buttonState;
        var thisFrameButtonDown := buttonName in thisFrameInputs && thisFrameInputs[buttonName].buttonState;
        thisFrameButtonDown && !lastFrameButtonDown
      else live.getKeyDown(buttonName)
    }

    /** Outside playback this forwards to the live key-up query. */
    function GetButtonUp(live: LiveInput, buttonName: string): (r: bool)
      reads this
      ensures mode == Playback ==> (r <==> FallingEdge(thisFrameInputs, lastFrameInputs, buttonName))
      ensures mode != Playback ==> r == live.getKeyUp(buttonName)
    {
      if mode == Playback then
        var lastFrameButtonDown := buttonName in lastFrameInputs && lastFrameInputs[buttonName].buttonState;
        var thisFrameButtonDown := buttonName in thisFrameInputs && thisFrameInputs[buttonName].buttonState;
        !thisFrameButtonDown && lastFrameButtonDown
      else live.getKeyUp(buttonName)
    }

    function GetAxis(live: LiveInput, axisName: string): (r: real)
      reads this
      ensures mode == Playback && axisName !in thisFrameInputs ==> r == 0.0
      ensures mode == Playback && axisName in thisFrameInputs ==> r == thisFrameInputs[axisName].axisValue
      ensures mode != Playback ==> r == live.getAxis(axisName)
    {
      if mode == Playback then AxisOf(thisFrameInputs, axisName) else live.getAxis(axisName)
    }

    function GetMouseButton(live: LiveInput, buttonNum: int): (r: bool)
      reads this
      ensures mode == Playback ==> (r <==> Held(thisFrameInputs, GetMouseButtonId(buttonNum)))
      ensures mode != Playback ==> r == live.getMouseButton(buttonNum)
    {
      if mode == Playback then
        var id := GetMouseButtonId(buttonNum);
        id in thisFrameInputs && thisFrameInputs[id].buttonState
      else live.getMouseButton(buttonNum)
    }

    function GetMouseButtonDown(live: LiveInput, buttonNum: int): (r: bool)
      reads this
      ensures mode == Playback ==> (r <==> RisingEdge(thisFrameInputs, lastFrameInputs, GetMouseButtonId(buttonNum)))
      ensures mode != Playback ==> r == live.getMouseButtonDown(buttonNum)
    {
      if mode == Playback then
        var buttonId := GetMouseButtonId(buttonNum);
        var lastFrameButtonDown := buttonId in lastFrameInputs && lastFrameInputs[buttonId].buttonState;
        var thisFrameButtonDown := buttonId in thisFrameInputs && thisFrameInputs[buttonId].buttonState;
        thisFrameButtonDown && !lastFrameButtonDown
      else live.getMouseButtonDown(buttonNum)
    }

    function GetMouseButtonUp(live: LiveInput, buttonNum: int): (r: bool)
      reads this
      ensures mode == Playback ==> (r <==> FallingEdge(thisFrameInputs, lastFrameInputs, GetMouseButtonId(buttonNum)))
      ensures mode != Playback ==> r == live.getMouseButtonUp(buttonNum)
    {
      if mode == Playback then
        var buttonId := GetMouseButtonId(buttonNum);
        var lastFrameButtonDown := buttonId in lastFrameInputs && lastFrameInputs[buttonId].buttonState;
        var thisFrameButtonDown := buttonId in thisFrameInputs && thisFrameInputs[buttonId].buttonState;
        !thisFrameButtonDown && lastFrameButtonDown
      else live.getMouseButtonUp(buttonNum)
    }

    /** In playback the pointer is rebuilt from the two recorded axes, with z = 0. */
    function MousePosition(live: LiveInput): (p: Vector3)
      reads this
      ensures mode == Playback ==> p == Vector3(AxisOf(thisFrameInputs, MousePosXId), AxisOf(thisFrameInputs, MousePosYId), 0.0)
      ensures mode != Playback ==> p == live.mousePosition
    {
      if mode == Playback then
        var mouseX := if MousePosXId in thisFrameInputs then thisFrameInputs[MousePosXId].axisValue else 0.0;
        var mouseY := if MousePosYId in thisFrameInputs then thisFrameInputs[MousePosYId].axisValue else 0.0;
        Vector3(mouseX, mouseY, 0.0)
      else live.mousePosition
    }

    /** Properties are read from the latched snapshot in every mode. */
    function GetProperty(propertyName: string): (r: string)
      reads this
      ensures propertyName in thisFrameProperties ==> r == thisFrameProperties[propertyName].value
      ensures propertyName !in thisFrameProperties ==> r == ""
    {
      if propertyName in thisFrameProperties then thisFrameProperties[propertyName].value else ""
    }
  }

  // ---------------------------------------------------------------------
  // Properties of the recorder

  lemma MouseButtonIdExample()
    ensures GetMouseButtonId(0) == "MOUSE_BUTTON_0"
    ensures GetMouseButtonId(2) == "MOUSE_BUTTON_2"
    ensures GetMouseButtonId(-1) == "MOUSE_BUTTON_-1"
  {
  }

  /** In a list whose middle section holds k, always with the same entry, and
    * whose tail does not, the last entry with key k is that entry. */
  lemma LastSampleWins<T>(key: T -> string, pre: seq<T>, mid: seq<T>, post: seq<T>, k: string, v: T)
    requires exists i :: 0 <= i < |mid| && key(mid[i]) == k
    requires forall i :: 0 <= i < |mid| && key(mid[i]) == k ==> mid[i] == v
    requires forall i :: 0 <= i < |post| ==> key(post[i]) != k
    ensures Keyed.FindLast(pre + mid + post, key, k) == Some(v)
  {
    var ys := pre + mid + post;
    var i :| 0 <= i < |mid| && key(mid[i]) == k;
    var li := Keyed.LastIndexOf(ys, key, k);
    assert key(ys[|pre| + i]) == k;
    assert li >= |pre| + i;
    assert ys[li] == mid[li - |pre|];
  }

  /** A recorded frame's inputs find, for each id, the last sample written
    * under it in the tick. */
  lemma RecordedFrameFindsLastSample(samples: seq<InputState>, id: string)
    ensures Keyed.UniqueKeys(Keyed.UpsertAll([], InputKey, samples), InputKey)
    ensures Keyed.FindLast(Keyed.UpsertAll([], InputKey, samples), InputKey, id) == Keyed.FindLast(samples, InputKey, id)
  {
    Keyed.UpsertAllKeepsUnique([], InputKey, samples);
    Keyed.UpsertAllFinds([], InputKey, samples, id);
    Keyed.FindIsFindLastWhenUnique(Keyed.UpsertAll([], InputKey, samples), InputKey, id);
  }

  /** Among one tick's samples, the last one under a configured button's id
    * is that button's sample when no axis or key shares the id. */
  lemma LastButtonSample(recordMouse: bool, buttons: seq<string>, axes: seq<string>, keys: seq<KeyCode>,
                         keyCodeId: KeyCode -> string, live: LiveInput, b: string)
    requires b in buttons && b !in axes
    requires forall i :: 0 <= i < |keys| ==> keyCodeId(keys[i]) != b
    ensures Keyed.FindLast(RecordedSamples(recordMouse, buttons, axes, keys, keyCodeId, live), InputKey, b)
            == Some(ButtonInput(b, live.getButton(b)))
  {
    var mouse := if recordMouse then MouseSamples(live) else [];
    var bs := ButtonSamples(buttons, live);
    var ax := AxisSamples(axes, live);
    var ks := KeySamples(keys, keyCodeId, live);
    var tail := ax + ks;
    assert RecordedSamples(recordMouse, buttons, axes, keys, keyCodeId, live) == mouse + bs + tail;
    var i :| 0 <= i < |buttons| && buttons[i] == b;
    assert InputKey(bs[i]) == b;
    forall j | 0 <= j < |tail| ensures InputKey(tail[j]) != b {
      if j >= |axes| {
        assert tail[j] == ks[j - |axes|];
      } else {
        assert tail[j] == ax[j];
      }
    }
    LastSampleWins(InputKey, mouse, bs, tail, b, ButtonInput(b, live.getButton(b)));
  }

  /** Record then replay, for a button: when the last frame a playback tick
    * crosses was recorded from live input, a configured button whose id no
    * axis or key shares is held in playback exactly when it was held live. */
  lemma ButtonRoundTrip(m: InputTable, frames: seq<Frame>, lo: int, hi: int,
                        recordMouse: bool, buttons: seq<string>, axes: seq<string>, keys: seq<KeyCode>,
                        keyCodeId: KeyCode -> string, live: LiveInput, b: string)
    requires 0 <= lo < hi <= |frames|
    requires frames[hi - 1].inputManagerStates
             == Keyed.UpsertAll([], InputKey, RecordedSamples(recordMouse, buttons, axes, keys, keyCodeId, live))
    requires b in buttons && b !in axes
    requires forall i :: 0 <= i < |keys| ==> keyCodeId(keys[i]) != b
    ensures Held(SweepInputs(m, frames, lo, hi), b) == live.getButton(b)
    ensures b in SweepInputs(m, frames, lo, hi) && SweepInputs(m, frames, lo, hi)[b] == ButtonInput(b, live.getButton(b))
  {
    LastButtonSample(recordMouse, buttons, axes, keys, keyCodeId, live, b);
    RecordedFrameFindsLastSample(RecordedSamples(recordMouse, buttons, axes, keys, keyCodeId, live), b);
    LastCrossedFrameWins(m, frames, lo, hi, b, ButtonInput(b, live.getButton(b)));
  }

  /** Record then replay, for an axis whose id no key shares. */
  lemma AxisRoundTrip(m: InputTable, frames: seq<Frame>, lo: int, hi: int,
                      recordMouse: bool, buttons: seq<string>, axes: seq<string>, keys: seq<KeyCode>,
                      keyCodeId: KeyCode -> string, live: LiveInput, a: string)
    requires 0 <= lo < hi <= |frames|
    requires frames[hi - 1].inputManagerStates
             == Keyed.UpsertAll([], InputKey, RecordedSamples(recordMouse, buttons, axes, keys, keyCodeId, live))
    requires a in axes
    requires forall i :: 0 <= i < |keys| ==> keyCodeId(keys[i]) != a
    ensures AxisOf(SweepInputs(m, frames, lo, hi), a) == live.getAxis(a)
    ensures !Held(SweepInputs(m, frames, lo, hi), a)
  {
    var pre := (if recordMouse then MouseSamples(live) else []) + ButtonSamples(buttons, live);
    var ax := AxisSamples(axes, live);
    var ks := KeySamples(keys, keyCodeId, live);
    var samples := RecordedSamples(recordMouse, buttons, axes, keys, keyCodeId, live);
    assert samples == pre + ax + ks;
    var i :| 0 <= i < |axes| && axes[i] == a;
    assert InputKey(ax[i]) == a;
    forall j | 0 <= j < |ks| ensures InputKey(ks[j]) != a {
      assert ks[j] == ButtonInput(keyCodeId(keys[j]), live.getKeyCode(keys[j]));
    }
    LastSampleWins(InputKey, pre, ax, ks, a, AxisInput(a, live.getAxis(a)));
    RecordedFrameFindsLastSample(samples, a);
    LastCrossedFrameWins(m, frames, lo, hi, a, AxisInput(a, live.getAxis(a)));
  }

  /** Record then replay, for a key, when distinct configured keys have
    * distinct ids. */
  lemma KeyRoundTrip(m: InputTable, frames: seq<Frame>, lo: int, hi: int,
                     recordMouse: bool, buttons: seq<string>, axes: seq<string>, keys: seq<KeyCode>,
                     keyCodeId: KeyCode -> string, live: LiveInput, kc: KeyCode)
    requires 0 <= lo < hi <= |frames|
    requires frames[hi - 1].inputManagerStates
             == Keyed.UpsertAll([], InputKey, RecordedSamples(recordMouse, buttons, axes, keys, keyCodeId, live))
    requires kc in keys
    requires forall i :: 0 <= i < |keys| && keyCodeId(keys[i]) == keyCodeId(kc) ==> keys[i] == kc
    ensures Held(SweepInputs(m, frames, lo, hi), keyCodeId(kc)) == live.getKeyCode(kc)
  {
    var pre := (if recordMouse then MouseSamples(live) else []) + ButtonSamples(buttons, live) + AxisSamples(axes, live);
    var ks := KeySamples(keys, keyCodeId, live);
    var samples := RecordedSamples(recordMouse, buttons, axes, keys, keyCodeId, live);
    assert samples == pre + ks + [];
    var i :| 0 <= i < |keys| && keys[i] == kc;
    assert InputKey(ks[i]) == keyCodeId(kc);
    forall j | 0 <= j < |ks| && InputKey(ks[j]) == keyCodeId(kc)
      ensures ks[j] == ButtonInput(keyCodeId(kc), live.getKeyCode(kc))
    {
      assert ks[j] == ButtonInput(keyCodeId(keys[j]), live.getKeyCode(keys[j]));
    }
    LastSampleWins(InputKey, pre, ks, [], keyCodeId(kc), ButtonInput(keyCodeId(kc), live.getKeyCode(kc)));
    RecordedFrameFindsLastSample(samples, keyCodeId(kc));
    LastCrossedFrameWins(m, frames, lo, hi, keyCodeId(kc), ButtonInput(keyCodeId(kc), live.getKeyCode(kc)));
  }

  /** SaveProperty keeps the queue free of equal entries and always leaves
    * the saved property queued. */
  lemma SavePropertyKeepsDistinct(queue: seq<FrameProperty>, p: FrameProperty)
    requires NoDuplicates(queue)
    ensures NoDuplicates(Enqueued(queue, p))
    ensures p in Enqueued(queue, p)
    ensures |queue| <= |Enqueued(queue, p)| <= |queue| + 1
  {
  }

  /** Draining the queue records, for each name, the last queued value. */
  lemma RecordedPropertyIsLastQueued(queue: seq<FrameProperty>, name: string)
    ensures Keyed.Find(Keyed.UpsertAll([], PropertyKey, queue), PropertyKey, name)
         == Keyed.FindLast(queue, PropertyKey, name)
  {
    Keyed.UpsertAllFinds([], PropertyKey, queue, name);
  }

  /** The equality test of SaveProperty compares name and value: saving a, b,
    * then a again for one name within a tick queues only [a, b], so the frame
    * records b although a was saved last. */
  lemma RepeatedSaveKeepsEarlierValue(name: string, a: string, b: string)
    requires a != b
    ensures var q := Enqueued(Enqueued(Enqueued([], FrameProperty(name, a)), FrameProperty(name, b)), FrameProperty(name, a));
      q == [FrameProperty(name, a), FrameProperty(name, b)] &&
      Keyed.Find(Keyed.UpsertAll([], PropertyKey, q), PropertyKey, name) == Some(FrameProperty(name, b))
  {
    var q := [FrameProperty(name, a), FrameProperty(name, b)];
    RecordedPropertyIsLastQueued(q, name);
  }

  /** Resuming a recording with Record() from a cursor on frame k keeps frames
    * 0 .. k, so the first recorded tick is accepted exactly when the cursor
    * time plus the tick passes frame k's time; on increasing frames with the
    * cursor at or after the first frame any positive tick is accepted. */
  lemma ResumeRecordingAppends(frames: seq<Frame>, t: real, dt: real)
    requires |frames| > 0
    ensures var k := FrameForTime(frames, t);
      CanAppendAt(Truncated(frames, k + 1), t + dt) <==> t + dt > frames[k].time
    ensures StrictlyIncreasing(frames) && frames[0].time <= t && dt > 0.0 ==>
      CanAppendAt(Truncated(frames, FrameForTime(frames, t) + 1), t + dt)
  {
    var k := FrameForTime(frames, t);
    assert Truncated(frames, k + 1) == frames[..k + 1];
    if StrictlyIncreasing(frames) && frames[0].time <= t {
      FrameForTimeIsLastAtOrBefore(frames, t);
    }
  }

  /** Before the first frame's time, the cursor still selects frame 0, which
    * Record() keeps: rewinding to 0 with the first frame at 0.5 and resuming
    * with a 0.5 tick rejects that tick's frame. */
  lemma RewindThenRecordRejectsFirstTick()
    ensures var frames := [EmptyFrame(0.5), EmptyFrame(1.0)];
      FrameForTime(frames, Clamp(0.0, 0.0, LengthOf(frames))) == 0 &&
      !CanAppendAt(Truncated(frames, 1), 0.0 + 0.5)
  {
    var frames := [EmptyFrame(0.5), EmptyFrame(1.0)];
    FrameForTimeBeforeSecondFrame(frames, 0.0);
  }

  // ---------------------------------------------------------------------
  // Scenarios: resuming a recording and the first recorded tick

  /** Record() with no cursor starts a new recording. */
  method RecordWithoutCursorStarts() returns (m: Mode, frames: seq<Frame>)
    ensures m == Mode.Record && frames == []
  {
    var vcr := new InputVCRRecorder([], [], [], false, k => "");
    vcr.Record();
    m := vcr.mode;
    frames := vcr.recordingState.targetRecording.frames;
  }

  /** Record() after a recorded tick keeps the frames up to the cursor. */
  method ResumeKeepsRecording(dt: real, live: LiveInput) returns (frames: seq<Frame>)
    ensures frames == [EmptyFrame(dt)]
  {
    var vcr := new InputVCRRecorder([], [], [], false, k => "");
    vcr.RecordNew();
    var st := vcr.Update(dt, live);
    vcr.Record();
    frames := vcr.recordingState.targetRecording.frames;
  }

  /** The first recorded tick of a new recording with one recorded button
    * writes that button's sample into the appended frame. */
  method FirstRecordedTickRecords(b: string, dt: real, live: LiveInput) returns (st: Status, frames: seq<Frame>)
    ensures st == Ok && frames == [Frame(dt, [ButtonInput(b, live.getButton(b))], [])]
  {
    var vcr := new InputVCRRecorder([b], [], [], false, k => "");
    vcr.RecordNew();
    var x := ButtonInput(b, live.getButton(b));
    assert ButtonSamples([b], live) == [x];
    assert RecordedSamples(false, [b], [], [], vcr.keyCodeId, live) == [x];
    assert Keyed.UpsertAll([], InputKey, [x]) == Keyed.Upsert([], InputKey, x) == [x];
    st := vcr.Update(dt, live);
    frames := vcr.recordingState.targetRecording.frames;
  }
}
