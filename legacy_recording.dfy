/** The frame-rate-indexed recording of the oldest version. Its frame
  * arithmetic and auto-extension are those of the intermediate version; it
  * tells axes from buttons by a flag, keeps properties in a list keyed by
  * name, and gives null rather than an empty array for the inputs of a
  * frame outside the list. */
module LegacyRecording {
  import opened Common
  import Keyed
  import RateRecording

  /** The state of one input in one frame. mouseButtonNum is -1 except for
    * mouse buttons. */
  datatype InputInfo = InputInfo(inputName: string, isAxis: bool, mouseButtonNum: int,
                                 buttonState: bool, axisValue: real)
  {
    /** Equal name, kind and mouse button, then the axis value for an axis and
      * the button state otherwise; nothing is equal to null. */
    function Equals(other: Option<InputInfo>): (r: bool)
      ensures r <==> other.Some? && inputName == other.value.inputName && isAxis == other.value.isAxis
                     && mouseButtonNum == other.value.mouseButtonNum
                     && (if isAxis then axisValue == other.value.axisValue
                         else buttonState == other.value.buttonState)
    {
      match other
      case None => false
      case Some(o) =>
        if inputName != o.inputName || isAxis != o.isAxis || mouseButtonNum != o.mouseButtonNum then false
        else if isAxis then axisValue == o.axisValue
        else buttonState == o.buttonState
    }
  }

  /** new InputInfo(): an unnamed button, released. */
  const DefaultInputInfo: InputInfo := InputInfo("", false, -1, false, 0.0)

  /** A struct: it is stored by value. */
  datatype FrameProperty = FrameProperty(name: string, property: string)

  datatype RecordingFrame = RecordingFrame(recordTime: real, inputs: seq<InputInfo>, syncedProperties: seq<FrameProperty>)

  const EmptyRecordingFrame: RecordingFrame := RecordingFrame(0.0, [], [])

  function InputName(i: InputInfo): string { i.inputName }

  function PropertyName(p: FrameProperty): string { p.name }

  /** The frames after AddInput(atFrame, inputInfo) on a non-negative frame. */
  function WithInputAt(frames: seq<RecordingFrame>, atFrame: nat, inputInfo: InputInfo): seq<RecordingFrame>
  {
    var ext := RateRecording.Extended(frames, atFrame, EmptyRecordingFrame);
    ext[atFrame := ext[atFrame].(inputs := Keyed.Upsert(ext[atFrame].inputs, InputName, inputInfo))]
  }

  /** The frames after AddProperty(atFrame, propertyInfo) on a non-negative frame. */
  function WithPropertyAt(frames: seq<RecordingFrame>, atFrame: nat, propertyInfo: FrameProperty): seq<RecordingFrame>
  {
    var ext := RateRecording.Extended(frames, atFrame, EmptyRecordingFrame);
    ext[atFrame := ext[atFrame].(syncedProperties := Keyed.Upsert(ext[atFrame].syncedProperties, PropertyName, propertyInfo))]
  }

  /** The input GetInput(atFrame, inputName) returns. */
  function InputAt(frames: seq<RecordingFrame>, atFrame: int, inputName: string): Option<InputInfo>
  {
    if 0 <= atFrame < |frames| then Keyed.Find(frames[atFrame].inputs, InputName, inputName) else None
  }

  /** The value GetProperty(atFrame, propertyName) returns. */
  function PropertyAt(frames: seq<RecordingFrame>, atFrame: int, propertyName: string): Option<string>
  {
    if 0 <= atFrame < |frames| then
      match Keyed.Find(frames[atFrame].syncedProperties, PropertyName, propertyName)
      case Some(p) => Some(p.property)
      case None => None
    else None
  }

  class Recording {
    var frameRate: int
    var frames: seq<RecordingFrame>

    constructor ()
      ensures frameRate == 60 && frames == []
    {
      frameRate := 60;
      frames := [];
    }

    /** The frame rate is raised to at least 1. */
    constructor WithRate(frameRate: int)
      ensures this.frameRate == (if frameRate < 1 then 1 else frameRate) && frames == []
    {
      this.frameRate := if frameRate < 1 then 1 else frameRate;
      frames := [];
    }

    /** The copy constructor: same rate, same frames. */
    constructor Copy(oldRecording: Recording)
      ensures frameRate == oldRecording.frameRate && frames == oldRecording.frames
    {
      frameRate := oldRecording.frameRate;
      frames := oldRecording.frames;
    }

    function TotalFrames(): nat
      reads this
    {
      |frames|
    }

    /** recordingLength: whole seconds, by integer division. */
    function RecordingLength(): (seconds: nat)
      reads this
      requires frameRate >= 1
      ensures seconds * frameRate <= |frames| < (seconds + 1) * frameRate
    {
      RateRecording.WholeSeconds(|frames|, frameRate)
    }

    function GetClosestFrame(toTime: real): (f: int)
      reads this
      ensures toTime * frameRate as real >= 0.0 ==> f as real <= toTime * frameRate as real < f as real + 1.0
      ensures toTime * frameRate as real < 0.0 ==> f as real - 1.0 < toTime * frameRate as real <= f as real
    {
      RateRecording.ClosestFrame(frameRate, toTime)
    }

    /** Appends empty frames until frame is an index of the list. */
    method CheckFrame(frame: int)
      modifies this`frames
      ensures frames == RateRecording.Extended(old(frames), frame, EmptyRecordingFrame)
    {
      ghost var frames0 := frames;
      while frame >= |frames|
        invariant |frames0| <= |frames|
        invariant frame >= |frames0| ==> |frames| <= frame + 1
        invariant frame < |frames0| ==> frames == frames0
        invariant frames == frames0 + seq(|frames| - |frames0|, _ => EmptyRecordingFrame)
        decreases frame - |frames|
      {
        frames := frames + [EmptyRecordingFrame];
      }
    }

    /** A negative frame passes CheckFrame unchanged and then fails the list
      * index. */
    method AddInput(atFrame: int, inputInfo: InputInfo) returns (st: Status)
      modifies this`frames
      ensures atFrame < 0 ==> st == Failed(IndexOutOfRange) && frames == old(frames)
      ensures atFrame >= 0 ==> st == Ok && frames == WithInputAt(old(frames), atFrame, inputInfo)
    {
      CheckFrame(atFrame);
      if atFrame < 0 {
        return Failed(IndexOutOfRange);
      }
      var inputs := frames[atFrame].inputs;
      var i := Keyed.FirstIndexOf(inputs, InputName, inputInfo.inputName);
      if i < |inputs| {
        // no duplicate inputs: overwrite the entry with this name
        inputs := inputs[i := inputInfo];
      } else {
        inputs := inputs + [inputInfo];
      }
      frames := frames[atFrame := frames[atFrame].(inputs := inputs)];
      return Ok;
    }

    method AddProperty(atFrame: int, propertyInfo: FrameProperty) returns (st: Status)
      modifies this`frames
      ensures atFrame < 0 ==> st == Failed(IndexOutOfRange) && frames == old(frames)
      ensures atFrame >= 0 ==> st == Ok && frames == WithPropertyAt(old(frames), atFrame, propertyInfo)
    {
      CheckFrame(atFrame);
      if atFrame < 0 {
        return Failed(IndexOutOfRange);
      }
      var props := frames[atFrame].syncedProperties;
      var i := Keyed.FirstIndexOf(props, PropertyName, propertyInfo.name);
      if i < |props| {
        // no duplicate properties: overwrite the entry with this name
        props := props[i := propertyInfo];
      } else {
        props := props + [propertyInfo];
      }
      frames := frames[atFrame := frames[atFrame].(syncedProperties := props)];
      return Ok;
    }

    method GetInput(atFrame: int, inputName: string) returns (r: Option<InputInfo>)
      ensures r == InputAt(frames, atFrame, inputName)
    {
      if atFrame < 0 || atFrame >= |frames| {
        return None;
      }
      var inputs := frames[atFrame].inputs;
      var i := Keyed.FirstIndexOf(inputs, InputName, inputName);
      if i < |inputs| {
        return Some(inputs[i]);
      }
      return None;
    }

    /** A copy of the frame's inputs; null outside the list. */
    function GetInputs(atFrame: int): (r: Option<seq<InputInfo>>)
      reads this
      ensures r.Some? <==> 0 <= atFrame < |frames|
      ensures r.Some? ==> r.value == frames[atFrame].inputs
    {
      if atFrame < 0 || atFrame >= |frames| then None else Some(frames[atFrame].inputs)
    }

    method GetProperty(atFrame: int, propertyName: string) returns (r: Option<string>)
      ensures r == PropertyAt(frames, atFrame, propertyName)
    {
      if atFrame < 0 || atFrame >= |frames| {
        return None;
      }
      var props := frames[atFrame].syncedProperties;
      var i := Keyed.FirstIndexOf(props, PropertyName, propertyName);
      if i < |props| {
        return Some(props[i].property);
      }
      return None;
    }
  }

  // ---------------------------------------------------------------------
  // Properties

  /** After AddInput the input is found under its name, the frame gained at
    * most one entry, other frames are as CheckFrame left them, and other
    * names read as before. */
  lemma AddInputThenGet(frames: seq<RecordingFrame>, atFrame: nat, inputInfo: InputInfo, name: string)
    ensures var after := WithInputAt(frames, atFrame, inputInfo);
      var ext := RateRecording.Extended(frames, atFrame, EmptyRecordingFrame);
      |after| == |ext| && atFrame < |after| &&
      InputAt(after, atFrame, inputInfo.inputName) == Some(inputInfo) &&
      (name != inputInfo.inputName ==> InputAt(after, atFrame, name) == InputAt(ext, atFrame, name)) &&
      |ext[atFrame].inputs| <= |after[atFrame].inputs| <= |ext[atFrame].inputs| + 1 &&
      (forall i :: 0 <= i < |after| && i != atFrame ==> after[i] == ext[i])
  {
    RateRecording.ExtendedKeepsPrefix(frames, atFrame, EmptyRecordingFrame);
    var ext := RateRecording.Extended(frames, atFrame, EmptyRecordingFrame);
    Keyed.UpsertFindsNew(ext[atFrame].inputs, InputName, inputInfo);
    Keyed.UpsertLength(ext[atFrame].inputs, InputName, inputInfo);
    if name != inputInfo.inputName {
      Keyed.UpsertFindsOthers(ext[atFrame].inputs, InputName, inputInfo, name);
    }
  }

  /** After AddProperty the value is read back and other names read as
    * before; the frame gained at most one entry. */
  lemma AddPropertyThenGet(frames: seq<RecordingFrame>, atFrame: nat, propertyInfo: FrameProperty, name: string)
    ensures var after := WithPropertyAt(frames, atFrame, propertyInfo);
      var ext := RateRecording.Extended(frames, atFrame, EmptyRecordingFrame);
      PropertyAt(after, atFrame, propertyInfo.name) == Some(propertyInfo.property) &&
      (name != propertyInfo.name ==> PropertyAt(after, atFrame, name) == PropertyAt(ext, atFrame, name)) &&
      |ext[atFrame].syncedProperties| <= |after[atFrame].syncedProperties| <= |ext[atFrame].syncedProperties| + 1
  {
    RateRecording.ExtendedKeepsPrefix(frames, atFrame, EmptyRecordingFrame);
    var ext := RateRecording.Extended(frames, atFrame, EmptyRecordingFrame);
    Keyed.UpsertFindsNew(ext[atFrame].syncedProperties, PropertyName, propertyInfo);
    Keyed.UpsertLength(ext[atFrame].syncedProperties, PropertyName, propertyInfo);
    if name != propertyInfo.name {
      Keyed.UpsertFindsOthers(ext[atFrame].syncedProperties, PropertyName, propertyInfo, name);
    }
  }

  /** Equals is an equivalence on the inputs it compares. */
  lemma EqualsIsEquivalence(a: InputInfo, b: InputInfo, c: InputInfo)
    ensures a.Equals(Some(a))
    ensures a.Equals(Some(b)) ==> b.Equals(Some(a))
    ensures a.Equals(Some(b)) && b.Equals(Some(c)) ==> a.Equals(Some(c))
  {
  }

  /** Equals ignores the field the input's kind does not use: a button equals
    * a copy of itself with a different axis value. */
  lemma EqualsIgnoresUnusedField(a: InputInfo, v: real)
    requires !a.isAxis && v != a.axisValue
    ensures a.Equals(Some(a.(axisValue := v))) && a != a.(axisValue := v)
  {
  }
}
