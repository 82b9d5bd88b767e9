/** The frame-rate-indexed recording of the intermediate version: frame i
  * covers the times [i / rate, (i + 1) / rate), writes grow the frame list
  * with empty frames up to the frame written, and reads outside the list
  * give nothing. Inputs are kept in a list keyed by name, properties in a
  * dictionary keyed by name. */
module RateRecording {
  import opened Common
  import Keyed

  // ---------------------------------------------------------------------
  // Frame-rate arithmetic, shared with the oldest recording

  /** (int)(toTime * frameRate): the frame a time falls in, truncated toward
    * zero. */
  function ClosestFrame(frameRate: int, toTime: real): (f: int)
    ensures toTime * frameRate as real >= 0.0 ==> f as real <= toTime * frameRate as real < f as real + 1.0
    ensures toTime * frameRate as real < 0.0 ==> f as real - 1.0 < toTime * frameRate as real <= f as real
  {
    Truncate(toTime * frameRate as real)
  }

  /** totalFrames / frameRate in integer arithmetic: the number of whole
    * seconds the frames cover. */
  function WholeSeconds(totalFrames: nat, frameRate: int): (seconds: nat)
    requires frameRate >= 1
    ensures seconds * frameRate <= totalFrames < (seconds + 1) * frameRate
  {
    totalFrames / frameRate
  }

  /** The frame list after CheckFrame(frame): empty frames are appended until
    * frame is an index of the list. */
  function Extended<F>(frames: seq<F>, frame: int, empty: F): seq<F>
  {
    if frame < |frames| then frames else frames + seq(frame + 1 - |frames|, _ => empty)
  }

  // ---------------------------------------------------------------------
  // Data model

  datatype InputType = Axis | Button | Key | Mouse

  /** The state of one input in one frame. mouseButtonNum is -1 except for
    * mouse buttons. */
  datatype InputInfo = InputInfo(inputType: InputType, inputName: string, mouseButtonNum: int,
                                 buttonState: bool, axisValue: real)
  {
    /** Structural equality on the fields that matter for the input's type:
      * the axis value for an axis, the button state otherwise; nothing is
      * equal to null. */
    function Equals(other: Option<InputInfo>): (r: bool)
      ensures r <==> other.Some? && inputName == other.value.inputName && inputType == other.value.inputType
                     && mouseButtonNum == other.value.mouseButtonNum
                     && (if inputType == Axis then axisValue == other.value.axisValue
                         else buttonState == other.value.buttonState)
    {
      match other
      case None => false
      case Some(o) =>
        if inputName != o.inputName || inputType != o.inputType || mouseButtonNum != o.mouseButtonNum then false
        else if inputType == Axis then axisValue == o.axisValue
        else buttonState == o.buttonState
    }
  }

  /** new InputInfo(): an unnamed button, released. */
  const DefaultInputInfo: InputInfo := InputInfo(Button, "", -1, false, 0.0)

  datatype FrameProperty = FrameProperty(name: string, property: string)

  datatype RecordingFrame = RecordingFrame(inputs: seq<InputInfo>, syncedProperties: map<string, FrameProperty>)

  const EmptyRecordingFrame: RecordingFrame := RecordingFrame([], map[])

  function InputName(i: InputInfo): string { i.inputName }

  /** The frames after AddInput(atFrame, inputInfo) on a non-negative frame:
    * the list is extended to atFrame and the input upserted there by name. */
  function WithInputAt(frames: seq<RecordingFrame>, atFrame: nat, inputInfo: InputInfo): seq<RecordingFrame>
  {
    var ext := Extended(frames, atFrame, EmptyRecordingFrame);
    ext[atFrame := ext[atFrame].(inputs := Keyed.Upsert(ext[atFrame].inputs, InputName, inputInfo))]
  }

  /** The dictionary after AddProperty(name, value): an existing entry gets the
    * new value, otherwise a new entry is added under the name. */
  function SetProperty(props: map<string, FrameProperty>, propertyName: string, propertyValue: string): map<string, FrameProperty>
  {
    if propertyName in props then props[propertyName := props[propertyName].(property := propertyValue)]
    else props[propertyName := FrameProperty(propertyName, propertyValue)]
  }

  function WithPropertyAt(frames: seq<RecordingFrame>, atFrame: nat, propertyName: string, propertyValue: string): seq<RecordingFrame>
  {
    var ext := Extended(frames, atFrame, EmptyRecordingFrame);
    ext[atFrame := ext[atFrame].(syncedProperties := SetProperty(ext[atFrame].syncedProperties, propertyName, propertyValue))]
  }

  /** The input GetInput(atFrame, inputName) returns. */
  function InputAt(frames: seq<RecordingFrame>, atFrame: int, inputName: string): Option<InputInfo>
  {
    if 0 <= atFrame < |frames| then Keyed.Find(frames[atFrame].inputs, InputName, inputName) else None
  }

  /** The value GetProperty(atFrame, propertyName) returns. */
  function PropertyAt(frames: seq<RecordingFrame>, atFrame: int, propertyName: string): Option<string>
  {
    if 0 <= atFrame < |frames| && propertyName in frames[atFrame].syncedProperties
    then Some(frames[atFrame].syncedProperties[propertyName].property)
    else None
  }

  /** Every property dictionary holds each property under its own name. */
  predicate PropertiesKeyedByName(frames: seq<RecordingFrame>)
  {
    forall i, k :: 0 <= i < |frames| && k in frames[i].syncedProperties ==> frames[i].syncedProperties[k].name == k
  }

  class Recording {
    var frameRate: int
    var frames: seq<RecordingFrame>

    constructor ()
      ensures frameRate == 60 && frames == []
    {
      frameRate := 60;
      frames := [];
    }

    /** The frame rate is raised to at least 1. */
    constructor WithRate(frameRate: int)
      ensures this.frameRate == (if frameRate < 1 then 1 else frameRate) && frames == []
    {
      this.frameRate := if frameRate < 1 then 1 else frameRate;
      frames := [];
    }

    /** The copy constructor: a null source gives the defaults. */
    constructor Copy(oldRecording: Recording?)
      ensures oldRecording != null ==> frameRate == oldRecording.frameRate && frames == oldRecording.frames
      ensures oldRecording == null ==> frameRate == 60 && frames == []
    {
      if oldRecording != null {
        frameRate := oldRecording.frameRate;
        frames := oldRecording.frames;
      } else {
        frameRate := 60;
        frames := [];
      }
    }

    function TotalFrames(): nat
      reads this
    {
      |frames|
    }

    /** recordingLength: whole seconds, by integer division. */
    function RecordingLength(): (seconds: nat)
      reads this
      requires frameRate >= 1
      ensures seconds * frameRate <= |frames| < (seconds + 1) * frameRate
    {
      WholeSeconds(|frames|, frameRate)
    }

    function GetClosestFrame(toTime: real): (f: int)
      reads this
      ensures toTime * frameRate as real >= 0.0 ==> f as real <= toTime * frameRate as real < f as real + 1.0
      ensures toTime * frameRate as real < 0.0 ==> f as real - 1.0 < toTime * frameRate as real <= f as real
    {
      ClosestFrame(frameRate, toTime)
    }

    /** Appends empty frames until frame is an index of the list. */
    method CheckFrame(frame: int)
      modifies this`frames
      ensures frames == Extended(old(frames), frame, EmptyRecordingFrame)
    {
      ghost var frames0 := frames;
      while frame >= |frames|
        invariant |frames0| <= |frames|
        invariant frame >= |frames0| ==> |frames| <= frame + 1
        invariant frame < |frames0| ==> frames == frames0
        invariant frames == frames0 + seq(|frames| - |frames0|, _ => EmptyRecordingFrame)
        decreases frame - |frames|
      {
        frames := frames + [EmptyRecordingFrame];
      }
    }

    /** A negative frame passes CheckFrame unchanged and then fails the list
      * index. */
    method AddInput(atFrame: int, inputInfo: InputInfo) returns (st: Status)
      modifies this`frames
      ensures atFrame < 0 ==> st == Failed(IndexOutOfRange) && frames == old(frames)
      ensures atFrame >= 0 ==> st == Ok && frames == WithInputAt(old(frames), atFrame, inputInfo)
    {
      CheckFrame(atFrame);
      if atFrame < 0 {
        return Failed(IndexOutOfRange);
      }
      var inputs := frames[atFrame].inputs;
      var i := Keyed.FirstIndexOf(inputs, InputName, inputInfo.inputName);
      if i < |inputs| {
        // no duplicate inputs: overwrite the entry with this name
        inputs := inputs[i := inputInfo];
      } else {
        inputs := inputs + [inputInfo];
      }
      frames := frames[atFrame := frames[atFrame].(inputs := inputs)];
      return Ok;
    }

    method AddProperty(atFrame: int, propertyName: string, propertyValue: string) returns (st: Status)
      modifies this`frames
      ensures atFrame < 0 ==> st == Failed(IndexOutOfRange) && frames == old(frames)
      ensures atFrame >= 0 ==> st == Ok && frames == WithPropertyAt(old(frames), atFrame, propertyName, propertyValue)
    {
      CheckFrame(atFrame);
      if atFrame < 0 {
        return Failed(IndexOutOfRange);
      }
      var props := frames[atFrame].syncedProperties;
      if propertyName in props {
        props := props[propertyName := props[propertyName].(property := propertyValue)];
      } else {
        props := props[propertyName := FrameProperty(propertyName, propertyValue)];
      }
      frames := frames[atFrame := frames[atFrame].(syncedProperties := props)];
      return Ok;
    }

    /** The first input of the frame with this name; null outside the list or
      * when the frame has none. */
    method GetInput(atFrame: int, inputName: string) returns (r: Option<InputInfo>)
      ensures r == InputAt(frames, atFrame, inputName)
    {
      if atFrame < 0 || atFrame >= |frames| {
        return None;
      }
      var inputs := frames[atFrame].inputs;
      var i := Keyed.FirstIndexOf(inputs, InputName, inputName);
      if i < |inputs| {
        return Some(inputs[i]);
      }
      return None;
    }

    /** A copy of the frame's inputs; an empty array outside the list. */
    function GetInputs(atFrame: int): (r: seq<InputInfo>)
      reads this
      ensures 0 <= atFrame < |frames| ==> r == frames[atFrame].inputs
      ensures !(0 <= atFrame < |frames|) ==> r == []
    {
      if atFrame < 0 || atFrame >= |frames| then [] else frames[atFrame].inputs
    }

    function GetProperty(atFrame: int, propertyName: string): (r: Option<string>)
      reads this
      ensures r.Some? <==> 0 <= atFrame < |frames| && propertyName in frames[atFrame].syncedProperties
      ensures r.Some? ==> r.value == frames[atFrame].syncedProperties[propertyName].property
    {
      PropertyAt(frames, atFrame, propertyName)
    }
  }

  // ---------------------------------------------------------------------
  // Properties

  /** Extending keeps every existing frame, adds only empty ones, and makes
    * any non-negative frame an index. */
  lemma ExtendedKeepsPrefix<F>(frames: seq<F>, frame: int, empty: F)
    ensures var ext := Extended(frames, frame, empty);
      |ext| == (if frame < |frames| then |frames| else frame + 1) &&
      ext[..|frames|] == frames &&
      (forall i :: |frames| <= i < |ext| ==> ext[i] == empty) &&
      (frame >= 0 ==> frame < |ext|)
  {
    var ext := Extended(frames, frame, empty);
    assert ext[..|frames|] == frames;
  }

  /** The time at which frame k begins maps back to frame k. */
  lemma {:induction false} ClosestFrameOfFrameStart(frameRate: int, k: nat)
    requires frameRate >= 1
    ensures ClosestFrame(frameRate, k as real / frameRate as real) == k
  {
    var t := k as real / frameRate as real;
    assert t * frameRate as real == k as real;
  }

  /** Scaling by a non-negative factor keeps the order of non-negative reals. */
  lemma ScaleMonotone(s: real, t: real, r: real)
    requires 0.0 <= s <= t && 0.0 <= r
    ensures 0.0 <= s * r <= t * r
  {
    var d := t - s;
    assert 0.0 <= d * r;
    assert t * r == s * r + d * r;
  }

  /** Later times never map to earlier frames. */
  lemma ClosestFrameMonotone(frameRate: int, s: real, t: real)
    requires frameRate >= 1 && 0.0 <= s <= t
    ensures 0 <= ClosestFrame(frameRate, s) <= ClosestFrame(frameRate, t)
  {
    var r := frameRate as real;
    ScaleMonotone(s, t, r);
    TruncateMonotone(s * r, t * r);
  }

  /** Truncation keeps the order of non-negative reals. */
  lemma TruncateMonotone(x: real, y: real)
    requires 0.0 <= x <= y
    ensures 0 <= Truncate(x) <= Truncate(y)
  {
  }

  /** Recording length in seconds times the rate never exceeds the frame
    * count, and adding one second's worth of frames adds one second. */
  lemma {:induction false} WholeSecondsStep(totalFrames: nat, frameRate: int)
    requires frameRate >= 1
    ensures WholeSeconds(totalFrames + frameRate, frameRate) == WholeSeconds(totalFrames, frameRate) + 1
  {
    var s := WholeSeconds(totalFrames, frameRate);
    var s' := WholeSeconds(totalFrames + frameRate, frameRate);
    assert s' * frameRate <= totalFrames + frameRate < (s' + 1) * frameRate;
    assert (s + 1) * frameRate <= totalFrames + frameRate < (s + 2) * frameRate;
  }

  /** After AddInput the input is found under its name, the frame gained at
    * most one entry, and every other frame is as CheckFrame left it. */
  lemma AddInputThenGet(frames: seq<RecordingFrame>, atFrame: nat, inputInfo: InputInfo)
    ensures var after := WithInputAt(frames, atFrame, inputInfo);
      var ext := Extended(frames, atFrame, EmptyRecordingFrame);
      |after| == |ext| && atFrame < |after| &&
      InputAt(after, atFrame, inputInfo.inputName) == Some(inputInfo) &&
      |ext[atFrame].inputs| <= |after[atFrame].inputs| <= |ext[atFrame].inputs| + 1 &&
      (forall i :: 0 <= i < |after| && i != atFrame ==> after[i] == ext[i])
  {
    ExtendedKeepsPrefix(frames, atFrame, EmptyRecordingFrame);
    var ext := Extended(frames, atFrame, EmptyRecordingFrame);
    Keyed.UpsertFindsNew(ext[atFrame].inputs, InputName, inputInfo);
    Keyed.UpsertLength(ext[atFrame].inputs, InputName, inputInfo);
  }

  /** AddInput leaves every other name's lookup as it was. */
  lemma AddInputKeepsOtherNames(frames: seq<RecordingFrame>, atFrame: nat, inputInfo: InputInfo, name: string)
    requires name != inputInfo.inputName
    ensures InputAt(WithInputAt(frames, atFrame, inputInfo), atFrame, name)
            == InputAt(Extended(frames, atFrame, EmptyRecordingFrame), atFrame, name)
  {
    ExtendedKeepsPrefix(frames, atFrame, EmptyRecordingFrame);
    var ext := Extended(frames, atFrame, EmptyRecordingFrame);
    Keyed.UpsertFindsOthers(ext[atFrame].inputs, InputName, inputInfo, name);
  }

  /** After AddProperty the value is read back, other names are untouched, and
    * the dictionaries stay keyed by name. */
  lemma AddPropertyThenGet(frames: seq<RecordingFrame>, atFrame: nat, propertyName: string, propertyValue: string, other: string)
    requires other != propertyName
    ensures var after := WithPropertyAt(frames, atFrame, propertyName, propertyValue);
      PropertyAt(after, atFrame, propertyName) == Some(propertyValue) &&
      PropertyAt(after, atFrame, other) == PropertyAt(Extended(frames, atFrame, EmptyRecordingFrame), atFrame, other)
    ensures PropertiesKeyedByName(frames) ==> PropertiesKeyedByName(WithPropertyAt(frames, atFrame, propertyName, propertyValue))
  {
    ExtendedKeepsPrefix(frames, atFrame, EmptyRecordingFrame);
  }

  /** Reads outside the list give nothing, the input lookup as the property
    * lookup. */
  lemma OutOfRangeReadsAreEmpty(frames: seq<RecordingFrame>, atFrame: int, name: string)
    requires atFrame < 0 || atFrame >= |frames|
    ensures InputAt(frames, atFrame, name) == None && PropertyAt(frames, atFrame, name) == None
  {
  }

  /** Equals is an equivalence on the inputs it compares. */
  lemma EqualsIsEquivalence(a: InputInfo, b: InputInfo, c: InputInfo)
    ensures a.Equals(Some(a))
    ensures a.Equals(Some(b)) ==> b.Equals(Some(a))
    ensures a.Equals(Some(b)) && b.Equals(Some(c)) ==> a.Equals(Some(c))
  {
  }

  /** Equals ignores the field the input's type does not use: an axis equals
    * a copy of itself with a different button state. */
  lemma EqualsIgnoresUnusedField(a: InputInfo)
    requires a.inputType == Axis
    ensures a.Equals(Some(a.(buttonState := !a.buttonState))) && a != a.(buttonState := !a.buttonState)
  {
  }
}
