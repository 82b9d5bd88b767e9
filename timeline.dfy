/** The timeline store of the current version: an ordered list of frames, each
  * a time stamp with the input states and custom properties recorded in it.
  * Frames are appended at strictly later times, truncated from an index on,
  * looked up by time (a step function that freezes on the last frame) and
  * edited in place by key. */
module Timeline {
  import opened Common
  import Keyed

  /** The state of one input source in one frame. */
  datatype InputState = InputState(inputId: string, buttonState: bool, axisValue: real)

  /** A named string recorded in one frame. */
  datatype FrameProperty = FrameProperty(name: string, value: string)

  /** One frame: its time and the states and properties recorded in it. */
  datatype Frame = Frame(time: real, inputManagerStates: seq<InputState>, syncedProperties: seq<FrameProperty>)

  /** The button-valued constructor: the axis value is 0. */
  function ButtonInput(inputId: string, buttonState: bool): (s: InputState)
    ensures s.inputId == inputId && s.buttonState == buttonState && s.axisValue == 0.0
  {
    InputState(inputId, buttonState, 0.0)
  }

  /** The axis-valued constructor: the button state is false. */
  function AxisInput(inputId: string, axisValue: real): (s: InputState)
    ensures s.inputId == inputId && !s.buttonState && s.axisValue == axisValue
  {
    InputState(inputId, false, axisValue)
  }

  /** default(InputState); its null id is represented by the empty string. */
  const NoInputState: InputState := InputState("", false, 0.0)

  function EmptyFrame(time: real): Frame
  {
    Frame(time, [], [])
  }

  function InputKey(s: InputState): string { s.inputId }

  function PropertyKey(p: FrameProperty): string { p.name }

  /** Time of the last frame, 0 for an empty recording. */
  function LengthOf(frames: seq<Frame>): real
  {
    if |frames| == 0 then 0.0 else frames[|frames| - 1].time
  }

  /** The ordering invariant: frame times strictly increase. */
  predicate StrictlyIncreasing(frames: seq<Frame>)
  {
    forall i, j :: 0 <= i < j < |frames| ==> frames[i].time < frames[j].time
  }

  /** The least index j >= i whose frame lies strictly after t, or |frames|. */
  function FirstLaterFrom(frames: seq<Frame>, t: real, i: nat): (j: nat)
    requires i <= |frames|
    ensures i <= j <= |frames|
    ensures forall k :: i <= k < j ==> frames[k].time <= t
    ensures j < |frames| ==> frames[j].time > t
    decreases |frames| - i
  {
    if i == |frames| then i
    else if frames[i].time > t then i
    else FirstLaterFrom(frames, t, i + 1)
  }

  /** The frame shown at time t: one before the first frame after index 0 that
    * lies strictly after t, or the last frame when there is none. */
  function FrameForTime(frames: seq<Frame>, t: real): (r: int)
    requires |frames| > 0
    ensures 0 <= r < |frames|
  {
    if |frames| == 1 then 0 else FirstLaterFrom(frames, t, 1) - 1
  }

  /** The frames kept by ClearFrames(startFrame). */
  function Truncated(frames: seq<Frame>, startFrame: int): seq<Frame>
  {
    if startFrame <= 0 then []
    else if startFrame < |frames| then frames[..startFrame]
    else frames
  }

  /** Whether AddFrame(t) is accepted. */
  predicate CanAppendAt(frames: seq<Frame>, t: real)
  {
    |frames| == 0 || t > LengthOf(frames)
  }

  /** A series of AddFrame calls; fails at the first rejected time. */
  function AppendAll(frames: seq<Frame>, ts: seq<real>): Result<seq<Frame>>
    decreases |ts|
  {
    if ts == [] then Success(frames)
    else if !CanAppendAt(frames, ts[0]) then Failure(FrameNotAfterEnd)
    else AppendAll(frames + [EmptyFrame(ts[0])], ts[1..])
  }

  /** The frame after AddInput wrote s into it. */
  function WithInput(frame: Frame, s: InputState): Frame
  {
    frame.(inputManagerStates := Keyed.Upsert(frame.inputManagerStates, InputKey, s))
  }

  /** The frame after AddProperty wrote p into it. */
  function WithProperty(frame: Frame, p: FrameProperty): Frame
  {
    frame.(syncedProperties := Keyed.Upsert(frame.syncedProperties, PropertyKey, p))
  }

  function FindInput(frame: Frame, inputId: string): Option<InputState>
  {
    Keyed.Find(frame.inputManagerStates, InputKey, inputId)
  }

  function FindProperty(frame: Frame, name: string): Option<FrameProperty>
  {
    Keyed.Find(frame.syncedProperties, PropertyKey, name)
  }

  class Recording {
    var frames: seq<Frame>

    constructor ()
      ensures frames == []
    {
      frames := [];
    }

    /** The copy constructor: a null source gives an empty recording. */
    constructor Copy(oldRecording: Recording?)
      ensures frames == if oldRecording == null then [] else oldRecording.frames
    {
      frames := if oldRecording == null then [] else oldRecording.frames;
    }

    function FrameCount(): nat
      reads this
    {
      |frames|
    }

    function Length(): real
      reads this
    {
      LengthOf(frames)
    }

    method GetFrameForTime(time: real) returns (r: Result<int>)
      ensures |frames| == 0 ==> r == Failure(EmptyRecording)
      ensures |frames| > 0 ==> r == Success(FrameForTime(frames, time))
    {
      if |frames| == 0 {
        return Failure(EmptyRecording);
      }
      var i := 1;
      while i < |frames|
        invariant 1 <= i <= |frames|
        invariant forall k :: 1 <= k < i ==> frames[k].time <= time
      {
        if frames[i].time > time {
          return Success(i - 1);
        }
        i := i + 1;
      }
      return Success(|frames| - 1);
    }

    method ClearFrames(startFrame: int)
      modifies this
      ensures frames == Truncated(old(frames), startFrame)
    {
      if startFrame <= 0 {
        frames := [];
      } else if startFrame < |frames| {
        frames := frames[..startFrame];
      }
    }

    method AddFrame(atTime: real) returns (st: Status)
      modifies this
      ensures st == Ok <==> CanAppendAt(old(frames), atTime)
      ensures st.Failed? ==> st.fault == FrameNotAfterEnd && frames == old(frames)
      ensures st == Ok ==> frames == old(frames) + [EmptyFrame(atTime)]
    {
      if |frames| > 0 {
        if atTime <= Length() {
          return Failed(FrameNotAfterEnd);
        }
      }
      frames := frames + [EmptyFrame(atTime)];
      return Ok;
    }

    /** The bounds-checked read every other access goes through. */
    function GetFrame(frameIdx: int): (r: Result<Frame>)
      reads this
      ensures r.Success? <==> 0 <= frameIdx < |frames|
      ensures r.Success? ==> r.value == frames[frameIdx]
      ensures r.Failure? ==> r.fault == FrameOutOfRange
    {
      if frameIdx < 0 || frameIdx >= |frames| then Failure(FrameOutOfRange) else Success(frames[frameIdx])
    }

    method AddInput(atFrame: int, inputState: InputState) returns (st: Status)
      modifies this
      ensures st == Ok <==> 0 <= atFrame < |old(frames)|
      ensures st.Failed? ==> st.fault == FrameOutOfRange && frames == old(frames)
      ensures st == Ok ==> frames == old(frames)[atFrame := WithInput(old(frames)[atFrame], inputState)]
    {
      var got := GetFrame(atFrame);
      if got.Failure? {
        return Failed(got.fault);
      }
      var frame := got.value;
      var states := frame.inputManagerStates;
      var i := Keyed.FirstIndexOf(states, InputKey, inputState.inputId);
      if i < |states| {
        // overwrite the existing state for this input
        states := states[i := inputState];
      } else {
        states := states + [inputState];
      }
      frames := frames[atFrame := frame.(inputManagerStates := states)];
      return Ok;
    }

    method AddProperty(atFrame: int, frameProperty: FrameProperty) returns (st: Status)
      modifies this
      ensures st == Ok <==> 0 <= atFrame < |old(frames)|
      ensures st.Failed? ==> st.fault == FrameOutOfRange && frames == old(frames)
      ensures st == Ok ==> frames == old(frames)[atFrame := WithProperty(old(frames)[atFrame], frameProperty)]
    {
      var got := GetFrame(atFrame);
      if got.Failure? {
        return Failed(got.fault);
      }
      var frame := got.value;
      var props := frame.syncedProperties;
      var i := Keyed.FirstIndexOf(props, PropertyKey, frameProperty.name);
      if i < |props| {
        props := props[i := frameProperty];
      } else {
        props := props + [frameProperty];
      }
      frames := frames[atFrame := frame.(syncedProperties := props)];
      return Ok;
    }

    /** The (name, value) overload. */
    method AddNamedProperty(atFrame: int, propertyName: string, propertyValue: string) returns (st: Status)
      modifies this
      ensures st == Ok <==> 0 <= atFrame < |old(frames)|
      ensures st.Failed? ==> st.fault == FrameOutOfRange && frames == old(frames)
      ensures st == Ok ==> frames == old(frames)[atFrame := WithProperty(old(frames)[atFrame], FrameProperty(propertyName, propertyValue))]
    {
      st := AddProperty(atFrame, FrameProperty(propertyName, propertyValue));
    }

    /** A missing input yields default(InputState), not an error. */
    method GetInput(atFrame: int, inputName: string) returns (r: Result<InputState>)
      ensures r.Success? <==> 0 <= atFrame < |frames|
      ensures r.Failure? ==> r.fault == FrameOutOfRange
      ensures r.Success? && FindInput(frames[atFrame], inputName).Some? ==> r.value == FindInput(frames[atFrame], inputName).value
      ensures r.Success? && FindInput(frames[atFrame], inputName).None? ==> r.value == NoInputState
    {
      var got := GetFrame(atFrame);
      if got.Failure? {
        return Failure(got.fault);
      }
      var states := got.value.inputManagerStates;
      var i := Keyed.FirstIndexOf(states, InputKey, inputName);
      if i < |states| {
        return Success(states[i]);
      }
      return Success(NoInputState);
    }

    /** Appends the frame's states after what the buffer already holds. */
    method GetInputs(atFrame: int, outStates: Buffer<InputState>) returns (st: Status)
      modifies outStates
      ensures st == Ok <==> 0 <= atFrame < |frames|
      ensures st.Failed? ==> st.fault == FrameOutOfRange && outStates.items == old(outStates.items)
      ensures st == Ok ==> outStates.items == old(outStates.items) + frames[atFrame].inputManagerStates
    {
      var got := GetFrame(atFrame);
      if got.Failure? {
        return Failed(got.fault);
      }
      outStates.AddRange(got.value.inputManagerStates);
      return Ok;
    }

    /** A missing property yields the empty string, not an error. */
    method GetProperty(atFrame: int, propertyName: string) returns (r: Result<string>)
      ensures r.Success? <==> 0 <= atFrame < |frames|
      ensures r.Failure? ==> r.fault == FrameOutOfRange
      ensures r.Success? && FindProperty(frames[atFrame], propertyName).Some? ==> r.value == FindProperty(frames[atFrame], propertyName).value.value
      ensures r.Success? && FindProperty(frames[atFrame], propertyName).None? ==> r.value == ""
    {
      var got := GetFrame(atFrame);
      if got.Failure? {
        return Failure(got.fault);
      }
      var props := got.value.syncedProperties;
      var i := Keyed.FirstIndexOf(props, PropertyKey, propertyName);
      if i < |props| {
        return Success(props[i].value);
      }
      return Success("");
    }

    method GetProperties(atFrame: int, outProps: Buffer<FrameProperty>) returns (st: Status)
      modifies outProps
      ensures st == Ok <==> 0 <= atFrame < |frames|
      ensures st.Failed? ==> st.fault == FrameOutOfRange && outProps.items == old(outProps.items)
      ensures st == Ok ==> outProps.items == old(outProps.items) + frames[atFrame].syncedProperties
    {
      var got := GetFrame(atFrame);
      if got.Failure? {
        return Failed(got.fault);
      }
      outProps.AddRange(got.value.syncedProperties);
      return Ok;
    }
  }

  // ---------------------------------------------------------------------
  // Properties of the timeline

  /** On increasing times, the looked-up frame is the last one at or before t
    * (frame 0 when t precedes frame 1), and every later frame is after t. */
  lemma FrameForTimeIsLastAtOrBefore(frames: seq<Frame>, t: real)
    requires |frames| > 0 && StrictlyIncreasing(frames)
    ensures var r := FrameForTime(frames, t);
      (forall k :: 1 <= k <= r ==> frames[k].time <= t) &&
      (forall k :: r < k < |frames| ==> frames[k].time > t)
  {
    var r := FrameForTime(frames, t);
    if |frames| > 1 {
      var j := FirstLaterFrom(frames, t, 1);
      assert r == j - 1;
      forall k | r < k < |frames| ensures frames[k].time > t {
        assert frames[j].time <= frames[k].time;
      }
    }
  }

  /** The characterisation above determines the frame uniquely. */
  lemma FrameForTimeUnique(frames: seq<Frame>, t: real, r: int)
    requires 0 <= r < |frames|
    requires forall k :: 1 <= k <= r ==> frames[k].time <= t
    requires r + 1 < |frames| ==> frames[r + 1].time > t
    ensures FrameForTime(frames, t) == r
  {
    if |frames| > 1 {
      var j := FirstLaterFrom(frames, t, 1);
    }
  }

  /** Before frame 1 the lookup answers frame 0, even for negative times. */
  lemma FrameForTimeBeforeSecondFrame(frames: seq<Frame>, t: real)
    requires |frames| > 0
    requires |frames| == 1 || t < frames[1].time
    ensures FrameForTime(frames, t) == 0
  {
  }

  /** Playback freezes on the last frame once t reaches the recording's length. */
  lemma FrameForTimeFreezesAtEnd(frames: seq<Frame>, t: real)
    requires |frames| > 0 && StrictlyIncreasing(frames)
    requires t >= LengthOf(frames)
    ensures FrameForTime(frames, t) == |frames| - 1
  {
    FrameForTimeUnique(frames, t, |frames| - 1);
  }

  /** The lookup is monotone in time, whatever the frame times. */
  lemma FrameForTimeMonotone(frames: seq<Frame>, t1: real, t2: real)
    requires |frames| > 0 && t1 <= t2
    ensures FrameForTime(frames, t1) <= FrameForTime(frames, t2)
  {
    if |frames| > 1 {
      var j1, j2 := FirstLaterFrom(frames, t1, 1), FirstLaterFrom(frames, t2, 1);
      if j2 < j1 {
        assert frames[j2].time > t2 >= t1;
      }
    }
  }

  /** The lookup example on frame times 0, 0.5, 1 and 1.5. */
  lemma FrameForTimeExample()
    ensures var fs := [EmptyFrame(0.0), EmptyFrame(0.5), EmptyFrame(1.0), EmptyFrame(1.5)];
      FrameForTime(fs, 0.7) == 1 && FrameForTime(fs, 0.0) == 0 &&
      FrameForTime(fs, 2.0) == 3 && FrameForTime(fs, -1.0) == 0
  {
    var fs := [EmptyFrame(0.0), EmptyFrame(0.5), EmptyFrame(1.0), EmptyFrame(1.5)];
    FrameForTimeUnique(fs, 0.7, 1);
    FrameForTimeUnique(fs, 0.0, 0);
    FrameForTimeUnique(fs, 2.0, 3);
    FrameForTimeUnique(fs, -1.0, 0);
  }

  /** A successful AddFrame keeps times increasing and sets Length to its time. */
  lemma AppendKeepsIncreasing(frames: seq<Frame>, t: real)
    requires StrictlyIncreasing(frames) && CanAppendAt(frames, t)
    ensures StrictlyIncreasing(frames + [EmptyFrame(t)])
    ensures LengthOf(frames + [EmptyFrame(t)]) == t
  {
    var fs := frames + [EmptyFrame(t)];
    forall i, j | 0 <= i < j < |fs| ensures fs[i].time < fs[j].time {
      if j == |frames| && i < |frames| - 1 {
        assert frames[i].time < frames[|frames| - 1].time;
      }
    }
  }

  /** Any series of successful AddFrame calls keeps frame times increasing and
    * adds one frame per call, the last at the last time given. */
  lemma {:induction false} AppendAllKeepsIncreasing(frames: seq<Frame>, ts: seq<real>)
    requires StrictlyIncreasing(frames)
    requires AppendAll(frames, ts).Success?
    ensures StrictlyIncreasing(AppendAll(frames, ts).value)
    ensures |AppendAll(frames, ts).value| == |frames| + |ts|
    ensures ts != [] ==> LengthOf(AppendAll(frames, ts).value) == ts[|ts| - 1]
    decreases |ts|
  {
    if ts != [] {
      AppendKeepsIncreasing(frames, ts[0]);
      AppendAllKeepsIncreasing(frames + [EmptyFrame(ts[0])], ts[1..]);
      if |ts| == 1 {
        assert AppendAll(frames + [EmptyFrame(ts[0])], ts[1..]) == Success(frames + [EmptyFrame(ts[0])]);
      }
    }
  }

  /** Truncation keeps a prefix of the frames, unchanged, of the stated size. */
  lemma TruncatedIsPrefix(frames: seq<Frame>, k: int)
    ensures Truncated(frames, k) <= frames
    ensures |Truncated(frames, k)| == if k <= 0 then 0 else if k < |frames| then k else |frames|
    ensures StrictlyIncreasing(frames) ==> StrictlyIncreasing(Truncated(frames, k))
  {
  }

  /** After ClearFrames(k), AddFrame only compares against the new last frame:
    * a time before the old frame k is accepted once it follows frame k-1. */
  lemma TruncateThenAppend(frames: seq<Frame>, k: int, t: real)
    requires StrictlyIncreasing(frames)
    requires 0 < k < |frames| && frames[k - 1].time < t
    ensures CanAppendAt(Truncated(frames, k), t)
    ensures StrictlyIncreasing(Truncated(frames, k) + [EmptyFrame(t)])
  {
    AppendKeepsIncreasing(Truncated(frames, k), t);
  }

  /** In-place edits never move a frame in time. */
  lemma EditsKeepIncreasing(frames: seq<Frame>, i: int, s: InputState, p: FrameProperty)
    requires StrictlyIncreasing(frames) && 0 <= i < |frames|
    ensures StrictlyIncreasing(frames[i := WithInput(frames[i], s)])
    ensures StrictlyIncreasing(frames[i := WithProperty(frames[i], p)])
  {
    var a := frames[i := WithInput(frames[i], s)];
    var b := frames[i := WithProperty(frames[i], p)];
    assert forall j :: 0 <= j < |frames| ==> a[j].time == frames[j].time == b[j].time;
  }

  /** AddInput's upsert: the written state is what GetInput then returns, no
    * other input of the frame changes, and at most one entry is added. */
  lemma AddInputThenGet(frame: Frame, s: InputState, otherId: string)
    requires otherId != s.inputId
    ensures FindInput(WithInput(frame, s), s.inputId) == Some(s)
    ensures FindInput(WithInput(frame, s), otherId) == FindInput(frame, otherId)
    ensures |frame.inputManagerStates| <= |WithInput(frame, s).inputManagerStates| <= |frame.inputManagerStates| + 1
    ensures WithInput(frame, s).time == frame.time && WithInput(frame, s).syncedProperties == frame.syncedProperties
  {
    Keyed.UpsertFindsNew(frame.inputManagerStates, InputKey, s);
    Keyed.UpsertFindsOthers(frame.inputManagerStates, InputKey, s, otherId);
    Keyed.UpsertLength(frame.inputManagerStates, InputKey, s);
  }

  /** Writing the same input twice leaves one entry, with the second value. */
  lemma AddInputTwice(frame: Frame, s1: InputState, s2: InputState)
    requires s1.inputId == s2.inputId
    ensures WithInput(WithInput(frame, s1), s2) == WithInput(frame, s2)
    ensures Keyed.UniqueKeys(frame.inputManagerStates, InputKey) ==> Keyed.UniqueKeys(WithInput(frame, s2).inputManagerStates, InputKey)
  {
    Keyed.UpsertTwice(frame.inputManagerStates, InputKey, s1, s2);
    if Keyed.UniqueKeys(frame.inputManagerStates, InputKey) {
      Keyed.UpsertKeepsUnique(frame.inputManagerStates, InputKey, s2);
    }
  }

  /** AddProperty's upsert by name: GetProperty then returns the stored value. */
  lemma AddPropertyThenGet(frame: Frame, p: FrameProperty, otherName: string)
    requires otherName != p.name
    ensures FindProperty(WithProperty(frame, p), p.name) == Some(p)
    ensures FindProperty(WithProperty(frame, p), otherName) == FindProperty(frame, otherName)
    ensures |frame.syncedProperties| <= |WithProperty(frame, p).syncedProperties| <= |frame.syncedProperties| + 1
    ensures WithProperty(frame, p).time == frame.time && WithProperty(frame, p).inputManagerStates == frame.inputManagerStates
  {
    Keyed.UpsertFindsNew(frame.syncedProperties, PropertyKey, p);
    Keyed.UpsertFindsOthers(frame.syncedProperties, PropertyKey, p, otherName);
    Keyed.UpsertLength(frame.syncedProperties, PropertyKey, p);
  }
}
