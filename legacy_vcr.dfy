/** The recorder component of the oldest version. It has four modes (Pause
  * blocks all input), samples inputs into the frame-rate-indexed recording
  * until the recorded time catches up with real time, and in playback keeps
  * only the inputs that differ from the latched ones. Its two latched
  * dictionaries are objects: the playback step makes the "last frame" one
  * an alias of the "this frame" one, which the model keeps. */
module LegacyVCR {
  import opened Common
  import Keyed
  import RateRecording
  import opened LegacyRecording

  datatype Mode = Passthru | Record | Playback | Pause

  const MouseButtonPrefix: string := "mousebutton"
  /** The property name the record loop writes the pointer position under. */
  const RecordedMousePosName: string := "mousePos"
  /** The property name mousePosition reads the pointer position from. */
  const QueriedMousePosName: string := "mousepos"

  function MouseButtonName(buttonNum: int): string
  {
    MouseButtonPrefix + IntToString(buttonNum)
  }

  /** The component's inspector settings that the per-frame step reads.
    * mouseText and vectorText stand for the engine's float formatting of
    * the pointer ("x,y") and of a transform vector ("x,y,z"); parsePointer
    * for splitting a string at commas and parsing exactly two floats;
    * syncInterval is 1 / autoSyncLocationRate. */
  datatype Config = Config(recordMouseEvents: bool, syncRecordLocations: bool, syncInterval: real,
                           mouseText: Vector3 -> string, vectorText: Vector3 -> string,
                           parsePointer: string -> Option<Vector3>)

  /** What the engine supplies to one LateUpdate besides the frame time:
    * live input, Time.time and the transform. */
  datatype Tick = Tick(live: LiveInput, now: real, position: Vector3, eulerAngles: Vector3)

  // ---------------------------------------------------------------------
  // The record loop, specified on values

  /** The three mouse-button entries the record loop writes, as written:
    * their button state is never set, so they are always released. */
  function MouseButtonInputs(): (xs: seq<InputInfo>)
    ensures |xs| == 3
    ensures forall i :: 0 <= i < 3 ==>
      xs[i].inputName == MouseButtonName(i) && xs[i].mouseButtonNum == i && !xs[i].isAxis && !xs[i].buttonState
  {
    seq(3, i => InputInfo(MouseButtonName(i), false, i, false, 0.0))
  }

  function MousePosProperty(cfg: Config, live: LiveInput): FrameProperty
  {
    FrameProperty(RecordedMousePosName, cfg.mouseText(live.mousePosition))
  }

  /** One entry of inputsToRecord after the record loop samples it, as
    * written: an axis reads the live axis, an entry with a mouse button
    * number reads the live button, any other entry keeps its state. */
  function SampledInput(x: InputInfo, live: LiveInput): (y: InputInfo)
    ensures y.inputName == x.inputName && y.isAxis == x.isAxis && y.mouseButtonNum == x.mouseButtonNum
    ensures x.isAxis ==> y.axisValue == live.getAxis(x.inputName) && y.buttonState == x.buttonState
    ensures !x.isAxis && x.mouseButtonNum >= 0 ==> y.buttonState == live.getButton(x.inputName) && y.axisValue == x.axisValue
    ensures !x.isAxis && x.mouseButtonNum < 0 ==> y == x
  {
    if x.isAxis then x.(axisValue := live.getAxis(x.inputName))
    else if x.mouseButtonNum >= 0 then x.(buttonState := live.getButton(x.inputName))
    else x
  }

  function SampledAll(xs: seq<InputInfo>, live: LiveInput): (ys: seq<InputInfo>)
    ensures |ys| == |xs| && forall i :: 0 <= i < |xs| ==> ys[i] == SampledInput(xs[i], live)
  {
    seq(|xs|, i requires 0 <= i < |xs| => SampledInput(xs[i], live))
  }

  lemma ConcatAssoc<T>(a: seq<T>, b: seq<T>, c: seq<T>)
    ensures (a + b) + c == a + (b + c)
  {
  }

  lemma SplitLast<T>(xs: seq<T>)
    requires xs != []
    ensures xs[..|xs| - 1] + [xs[|xs| - 1]] == xs
  {
  }

  /** Sampling entry j of a list whose first j entries are sampled. */
  lemma SampleStep(xs: seq<InputInfo>, j: nat, live: LiveInput)
    requires j < |xs|
    ensures SampledAll(xs[..j + 1], live) == SampledAll(xs[..j], live) + [SampledInput(xs[j], live)]
    ensures (SampledAll(xs[..j], live) + xs[j..])[j := SampledInput(xs[j], live)] == SampledAll(xs[..j + 1], live) + xs[j + 1..]
  {
    var a := SampledAll(xs[..j + 1], live);
    assert a == SampledAll(xs[..j], live) + [SampledInput(xs[j], live)];
    assert (SampledAll(xs[..j], live) + xs[j..])[j := SampledInput(xs[j], live)] == a + xs[j + 1..];
  }

  /** The position and rotation SyncPosition queues. */
  function SyncedQueue(cfg: Config, queue: seq<FrameProperty>, position: Vector3, eulerAngles: Vector3): seq<FrameProperty>
  {
    Enqueued(Enqueued(queue, FrameProperty("position", cfg.vectorText(position))),
             FrameProperty("rotation", cfg.vectorText(eulerAngles)))
  }

  /** The frames after writing the inputs ins and the properties props, in
    * order, into frame f, the first write extending the list to f. */
  function RecordedAt(frames: seq<RecordingFrame>, f: nat, ins: seq<InputInfo>, props: seq<FrameProperty>): seq<RecordingFrame>
  {
    var ext := RateRecording.Extended(frames, f, EmptyRecordingFrame);
    ext[f := ext[f].(inputs := Keyed.UpsertAll(ext[f].inputs, InputName, ins),
                     syncedProperties := Keyed.UpsertAll(ext[f].syncedProperties, PropertyName, props))]
  }

  /** The part of the component's state the record loop changes. */
  datatype RecState = RecState(frames: seq<RecordingFrame>, inputsToRecord: seq<InputInfo>,
                               queue: seq<FrameProperty>, nextPosSyncTime: real, currentFrame: int)

  datatype StepResult = StepResult(status: Status, state: RecState)

  /** Whether the position sync of a loop pass is due. */
  predicate SyncDue(cfg: Config, s: RecState, tick: Tick)
  {
    cfg.syncRecordLocations && tick.now > s.nextPosSyncTime
  }

  /** The property queue once the due sync has been queued. */
  function StepQueue(cfg: Config, s: RecState, tick: Tick): seq<FrameProperty>
  {
    if SyncDue(cfg, s, tick) then SyncedQueue(cfg, s.queue, tick.position, tick.eulerAngles) else s.queue
  }

  /** The next sync time after a loop pass. */
  function StepNextSync(cfg: Config, s: RecState, tick: Tick): real
  {
    if SyncDue(cfg, s, tick) then tick.now + cfg.syncInterval else s.nextPosSyncTime
  }

  /** The inputs one loop pass writes, in order: the mouse buttons, then the
    * sampled inputs. */
  function StepInputs(cfg: Config, s: RecState, tick: Tick): seq<InputInfo>
  {
    (if cfg.recordMouseEvents then MouseButtonInputs() else []) + SampledAll(s.inputsToRecord, tick.live)
  }

  /** The properties one loop pass writes, in order: the pointer, then the
    * queue. */
  function StepProperties(cfg: Config, s: RecState, tick: Tick): seq<FrameProperty>
  {
    (if cfg.recordMouseEvents then [MousePosProperty(cfg, tick.live)] else []) + StepQueue(cfg, s, tick)
  }

  /** One pass of the record loop over frame currentFrame: the mouse
    * position and buttons, then every sampled input, then the position sync
    * when it is due, then the queued properties; the queue is cleared and the
    * frame advanced. On a negative frame the first write throws, after the
    * sampling and the sync that precede it. */
  function RecordStep(cfg: Config, s: RecState, tick: Tick): (r: StepResult)
    ensures r.status.Failed? ==> s.currentFrame < 0 && r.state.currentFrame == s.currentFrame
  {
    var sampled := SampledAll(s.inputsToRecord, tick.live);
    var queue := StepQueue(cfg, s, tick);
    var nextSync := StepNextSync(cfg, s, tick);
    var f := s.currentFrame;
    var ins := StepInputs(cfg, s, tick);
    var props := StepProperties(cfg, s, tick);
    if f >= 0 then
      // with nothing to write CheckFrame never runs and the list does not grow
      var frames := if ins == [] && props == [] then s.frames else RecordedAt(s.frames, f, ins, props);
      StepResult(Ok, RecState(frames, sampled, [], nextSync, f + 1))
    else if cfg.recordMouseEvents then
      StepResult(Failed(IndexOutOfRange), s)
    else if s.inputsToRecord != [] then
      StepResult(Failed(IndexOutOfRange), s.(inputsToRecord := s.inputsToRecord[0 := sampled[0]]))
    else if queue != [] then
      StepResult(Failed(IndexOutOfRange), s.(queue := queue, nextPosSyncTime := nextSync))
    else
      StepResult(Ok, s.(queue := [], nextPosSyncTime := nextSync, currentFrame := f + 1))
  }

  /** A pass throws, always IndexOutOfRange, exactly when the frame is negative
    * and there is something to write; a failed pass leaves the frame and the
    * frame list alone, a successful one empties the queue and advances. */
  lemma RecordStepOutcome(cfg: Config, s: RecState, tick: Tick)
    ensures var r := RecordStep(cfg, s, tick);
      (r.status == Ok || r.status == Failed(IndexOutOfRange)) &&
      (r.status.Failed? <==>
         s.currentFrame < 0 && (cfg.recordMouseEvents || s.inputsToRecord != [] || StepQueue(cfg, s, tick) != [])) &&
      (r.status == Ok ==> r.state.queue == [] && r.state.currentFrame == s.currentFrame + 1) &&
      (r.status.Failed? ==> r.state.currentFrame == s.currentFrame && r.state.frames == s.frames)
  {
  }

  /** currentTime < realRecordingTime, with currentTime = currentFrame / rate. */
  predicate Behind(frame: int, frameRate: int, time: real)
    requires frameRate >= 1
  {
    frame as real / frameRate as real < time
  }

  /** How many frames the loop may still record. */
  function Gap(frame: int, frameRate: int, time: real): (g: int)
    requires frameRate >= 1
    ensures Behind(frame, frameRate, time) ==> g > 0
  {
    BehindIsBelowFrameTime(frame, frameRate, time);
    (time * frameRate as real).Floor + 1 - frame
  }

  lemma BehindIsBelowFrameTime(frame: int, frameRate: int, time: real)
    requires frameRate >= 1
    ensures Behind(frame, frameRate, time) <==> frame as real < time * frameRate as real
  {
    var r := frameRate as real;
    assert (frame as real / r) * r == frame as real;
    if Behind(frame, frameRate, time) {
      assert (frame as real / r) * r < time * r;
    } else {
      assert (frame as real / r) * r >= time * r;
    }
  }

  /** The record loop: frames are recorded until the recorded time catches
    * up with time, or a write throws. */
  function RecordUntil(cfg: Config, s: RecState, frameRate: int, time: real, tick: Tick): (r: StepResult)
    requires frameRate >= 1
    ensures r.status.Failed? ==> r.status == Failed(IndexOutOfRange) && r.state.currentFrame < 0
    decreases Gap(s.currentFrame, frameRate, time)
  {
    if !Behind(s.currentFrame, frameRate, time) then StepResult(Ok, s)
    else
      RecordStepOutcome(cfg, s, tick);
      var r := RecordStep(cfg, s, tick);
      if r.status.Failed? then r else RecordUntil(cfg, r.state, frameRate, time, tick)
  }

  // ---------------------------------------------------------------------
  // The playback sweep, specified on values

  /** An input is collected when its name is not latched or the latched entry
    * is not Equals to it. */
  predicate Differs(latched: map<string, InputInfo>, x: InputInfo)
  {
    x.inputName !in latched || !latched[x.inputName].Equals(Some(x))
  }

  /** The changes one frame's inputs add to acc, later entries overwriting. */
  function ChangedIn(latched: map<string, InputInfo>, xs: seq<InputInfo>, acc: map<string, InputInfo>): (r: map<string, InputInfo>)
    ensures acc.Keys <= r.Keys
    decreases |xs|
  {
    if xs == [] then acc
    else
      var m := ChangedIn(latched, xs[..|xs| - 1], acc);
      var x := xs[|xs| - 1];
      if Differs(latched, x) then m[x.inputName := x] else m
  }

  /** The changes collected over frames lo .. hi, or None when one of them is
    * outside the recording (GetInputs returns null there and the loop over
    * it throws). */
  function ChangedOver(latched: map<string, InputInfo>, frames: seq<RecordingFrame>, lo: int, hi: int): (r: Option<map<string, InputInfo>>)
    ensures r.Some? && lo <= hi ==> 0 <= lo && hi < |frames|
    decreases if hi < lo then 0 else hi - lo + 1
  {
    if hi < lo then Some(map[])
    else
      match ChangedOver(latched, frames, lo, hi - 1)
      case None => None
      case Some(acc) =>
        if 0 <= hi < |frames| then Some(ChangedIn(latched, frames[hi].inputs, acc)) else None
  }

  /** Once a frame of the sweep is outside the recording, the whole sweep is. */
  lemma {:induction false} ChangedOverStaysNone(latched: map<string, InputInfo>, frames: seq<RecordingFrame>, lo: int, k: int, hi: int)
    requires lo <= k <= hi && ChangedOver(latched, frames, lo, k) == None
    ensures ChangedOver(latched, frames, lo, hi) == None
    decreases hi - k
  {
    if k < hi {
      ChangedOverStaysNone(latched, frames, lo, k, hi - 1);
    }
  }

  /** The sweep over lo .. hi is defined exactly when every frame in it is
    * an index of the recording. */
  lemma {:induction false} ChangedOverDefined(latched: map<string, InputInfo>, frames: seq<RecordingFrame>, lo: int, hi: int)
    ensures ChangedOver(latched, frames, lo, hi).Some? <==> hi < lo || (0 <= lo && hi < |frames|)
    decreases if hi < lo then 0 else hi - lo + 1
  {
    if lo <= hi {
      ChangedOverDefined(latched, frames, lo, hi - 1);
    }
  }

  /** GetButtonDown and GetButtonUp on a latched pair, for a latched id. */
  predicate ButtonDownOf(thisFrame: map<string, InputInfo>, lastFrame: map<string, InputInfo>, b: string)
    requires b in thisFrame
  {
    thisFrame[b].buttonState && (b !in lastFrame || !lastFrame[b].buttonState)
  }

  predicate ButtonUpOf(thisFrame: map<string, InputInfo>, lastFrame: map<string, InputInfo>, b: string)
    requires b in thisFrame
  {
    !thisFrame[b].buttonState && (b !in lastFrame || lastFrame[b].buttonState)
  }

  // ---------------------------------------------------------------------
  // Frame edits the record loop makes, one write at a time

  /** F is frames0 after the writes ins and props into frame f; with no write
    * yet the list is untouched. */
  predicate EditedTo(F: seq<RecordingFrame>, frames0: seq<RecordingFrame>, f: nat, ins: seq<InputInfo>, props: seq<FrameProperty>)
  {
    if ins == [] && props == [] then F == frames0 else F == RecordedAt(frames0, f, ins, props)
  }

  lemma WriteInput(F: seq<RecordingFrame>, frames0: seq<RecordingFrame>, f: nat, ins: seq<InputInfo>, props: seq<FrameProperty>, x: InputInfo)
    requires EditedTo(F, frames0, f, ins, props)
    ensures WithInputAt(F, f, x) == RecordedAt(frames0, f, ins + [x], props)
  {
    var ext := RateRecording.Extended(frames0, f, EmptyRecordingFrame);
    RateRecording.ExtendedKeepsPrefix(frames0, f, EmptyRecordingFrame);
    var ins' := ins + [x];
    assert ins'[..|ins'| - 1] == ins;
    assert Keyed.UpsertAll(ext[f].inputs, InputName, ins') == Keyed.Upsert(Keyed.UpsertAll(ext[f].inputs, InputName, ins), InputName, x);
    if ins == [] && props == [] {
      assert F == frames0;
    } else {
      assert F == RecordedAt(frames0, f, ins, props);
      assert RateRecording.Extended(F, f, EmptyRecordingFrame) == F;
    }
  }

  lemma WriteProperty(F: seq<RecordingFrame>, frames0: seq<RecordingFrame>, f: nat, ins: seq<InputInfo>, props: seq<FrameProperty>, p: FrameProperty)
    requires EditedTo(F, frames0, f, ins, props)
    ensures WithPropertyAt(F, f, p) == RecordedAt(frames0, f, ins, props + [p])
  {
    var ext := RateRecording.Extended(frames0, f, EmptyRecordingFrame);
    RateRecording.ExtendedKeepsPrefix(frames0, f, EmptyRecordingFrame);
    var props' := props + [p];
    assert props'[..|props'| - 1] == props;
    assert Keyed.UpsertAll(ext[f].syncedProperties, PropertyName, props')
        == Keyed.Upsert(Keyed.UpsertAll(ext[f].syncedProperties, PropertyName, props), PropertyName, p);
    if ins == [] && props == [] {
      assert F == frames0;
    } else {
      assert F == RecordedAt(frames0, f, ins, props);
      assert RateRecording.Extended(F, f, EmptyRecordingFrame) == F;
    }
  }

  /** The frames after AddInput(f, x) for each x of xs, in order. */
  function WrittenInputs(frames: seq<RecordingFrame>, f: nat, xs: seq<InputInfo>): seq<RecordingFrame>
    decreases |xs|
  {
    if xs == [] then frames else WithInputAt(WrittenInputs(frames, f, xs[..|xs| - 1]), f, xs[|xs| - 1])
  }

  /** The frames after AddProperty(f, p) for each p of ps, in order. */
  function WrittenProperties(frames: seq<RecordingFrame>, f: nat, ps: seq<FrameProperty>): seq<RecordingFrame>
    decreases |ps|
  {
    if ps == [] then frames else WithPropertyAt(WrittenProperties(frames, f, ps[..|ps| - 1]), f, ps[|ps| - 1])
  }

  lemma WrittenPropertiesStep(frames: seq<RecordingFrame>, f: nat, ps: seq<FrameProperty>, k: nat)
    requires k < |ps|
    ensures WrittenProperties(frames, f, ps[..k + 1]) == WithPropertyAt(WrittenProperties(frames, f, ps[..k]), f, ps[k])
  {
    assert ps[..k + 1][..k] == ps[..k];
  }

  lemma {:induction false} WrittenInputsEdit(F: seq<RecordingFrame>, frames0: seq<RecordingFrame>, f: nat,
                                             ins: seq<InputInfo>, props: seq<FrameProperty>, xs: seq<InputInfo>)
    requires EditedTo(F, frames0, f, ins, props)
    ensures EditedTo(WrittenInputs(F, f, xs), frames0, f, ins + xs, props)
    decreases |xs|
  {
    if xs == [] {
      assert ins + xs == ins;
    } else {
      var xs', x := xs[..|xs| - 1], xs[|xs| - 1];
      WrittenInputsEdit(F, frames0, f, ins, props, xs');
      WriteInput(WrittenInputs(F, f, xs'), frames0, f, ins + xs', props, x);
      ConcatAssoc(ins, xs', [x]);
      SplitLast(xs);
    }
  }

  lemma {:induction false} WrittenPropertiesEdit(F: seq<RecordingFrame>, frames0: seq<RecordingFrame>, f: nat,
                                                 ins: seq<InputInfo>, props: seq<FrameProperty>, ps: seq<FrameProperty>)
    requires EditedTo(F, frames0, f, ins, props)
    ensures EditedTo(WrittenProperties(F, f, ps), frames0, f, ins, props + ps)
    decreases |ps|
  {
    if ps == [] {
      assert props + ps == props;
    } else {
      var ps', p := ps[..|ps| - 1], ps[|ps| - 1];
      WrittenPropertiesEdit(F, frames0, f, ins, props, ps');
      WriteProperty(WrittenProperties(F, f, ps'), frames0, f, ins, props + ps', p);
      ConcatAssoc(props, ps', [p]);
      SplitLast(ps);
    }
  }

  /** mousePosition in playback: the pointer property of the current frame
    * when it is present, non-empty and parses, else the live pointer. */
  function PointerAt(cfg: Config, frames: seq<RecordingFrame>, frame: int, live: LiveInput): (v: Vector3)
    ensures v != live.mousePosition ==>
      var p := PropertyAt(frames, frame, QueriedMousePosName);
      p.Some? && p.value != "" && cfg.parsePointer(p.value) == Some(v)
  {
    match PropertyAt(frames, frame, QueriedMousePosName)
    case Some(text) =>
      if text == "" then live.mousePosition
      else (match cfg.parsePointer(text) case Some(v) => v case None => live.mousePosition)
    case None => live.mousePosition
  }

  // ---------------------------------------------------------------------
  // The component

  /** A Dictionary<string, InputInfo> object. */
  class InputTable {
    var entries: map<string, InputInfo>

    constructor ()
      ensures entries == map[]
    {
      entries := map[];
    }

    method Clear()
      modifies this
      ensures entries == map[]
    {
      entries := map[];
    }
  }

  class InputVCR {
    const config: Config
    /** The inspector's recordingFrameRate, the rate of new recordings. */
    const recordingFrameRate: int

    /** inputsToRecord: its entries are objects the record loop samples into,
      * so their last sampled values persist. */
    var inputsToRecord: seq<InputInfo>
    var mode: Mode
    var nextPosSyncTime: real
    var realRecordingTime: real
    var currentRecording: Recording?
    var currentFrame: int
    var nextPropertiesToRecord: seq<FrameProperty>
    var lastFrameInputs: InputTable
    var thisFrameInputs: InputTable
    var playbackTime: real
    ghost var finishedPlaybackCount: nat

    ghost function Footprint(): set<object>
      reads this
    {
      if currentRecording == null then {lastFrameInputs, thisFrameInputs}
      else var rec: Recording := currentRecording; {lastFrameInputs, thisFrameInputs, rec}
    }

    /** Recordings have a positive rate, and recording always has one. */
    ghost predicate Valid()
      reads this, Footprint()
    {
      (currentRecording != null ==> currentRecording.frameRate >= 1) &&
      (mode == Mode.Record ==> currentRecording != null)
    }

    constructor (config: Config, recordingFrameRate: int, inputsToRecord: seq<InputInfo>)
      ensures Valid()
      ensures this.config == config && this.recordingFrameRate == recordingFrameRate && this.inputsToRecord == inputsToRecord
      ensures mode == Passthru && nextPosSyncTime == -1.0 && realRecordingTime == 0.0 && currentRecording == null
      ensures currentFrame == 0 && nextPropertiesToRecord == [] && playbackTime == 0.0 && finishedPlaybackCount == 0
      ensures fresh(lastFrameInputs) && fresh(thisFrameInputs) && lastFrameInputs != thisFrameInputs
      ensures lastFrameInputs.entries == map[] && thisFrameInputs.entries == map[]
    {
      this.config := config;
      this.recordingFrameRate := recordingFrameRate;
      this.inputsToRecord := inputsToRecord;
      mode := Passthru;
      nextPosSyncTime := -1.0;
      realRecordingTime := 0.0;
      currentRecording := null;
      currentFrame := 0;
      nextPropertiesToRecord := [];
      lastFrameInputs := new InputTable();
      thisFrameInputs := new InputTable();
      playbackTime := 0.0;
      finishedPlaybackCount := 0;
    }

    ghost function RecordLoopState(): RecState
      reads this, currentRecording
      requires currentRecording != null
    {
      RecState(currentRecording.frames, inputsToRecord, nextPropertiesToRecord, nextPosSyncTime, currentFrame)
    }

    // -------------------------------------------------------------------
    // Mode control

    /** Appends to the current recording when it has at least a second of
      * frames; otherwise starts a new one. */
    method Record()
      requires Valid()
      modifies this
      ensures Valid()
      ensures old(currentRecording) == null || old(currentRecording.RecordingLength()) == 0 ==> NewRecordingStarted()
      ensures old(currentRecording) != null && old(currentRecording.RecordingLength()) != 0 ==>
        mode == Mode.Record && currentRecording == old(currentRecording) && currentFrame == old(currentFrame) &&
        realRecordingTime == old(realRecordingTime) && nextPropertiesToRecord == old(nextPropertiesToRecord) &&
        nextPosSyncTime == old(nextPosSyncTime)
      ensures inputsToRecord == old(inputsToRecord) && playbackTime == old(playbackTime)
      ensures lastFrameInputs == old(lastFrameInputs) && thisFrameInputs == old(thisFrameInputs)
      ensures finishedPlaybackCount == old(finishedPlaybackCount)
    {
      if currentRecording == null || currentRecording.RecordingLength() == 0 {
        NewRecording();
      } else {
        mode := Mode.Record;
      }
    }

    twostate predicate NewRecordingStarted()
      reads this, Footprint()
    {
      mode == Mode.Record && currentRecording != null && fresh(currentRecording) &&
      currentRecording.frames == [] &&
      currentRecording.frameRate == (if recordingFrameRate < 1 then 1 else recordingFrameRate) &&
      currentFrame == 0 && realRecordingTime == 0.0 && nextPosSyncTime == -1.0 && nextPropertiesToRecord == []
    }

    /** Discards the current recording. The latched inputs are kept. */
    method NewRecording()
      modifies this
      ensures Valid() && NewRecordingStarted()
      ensures inputsToRecord == old(inputsToRecord) && playbackTime == old(playbackTime)
      ensures lastFrameInputs == old(lastFrameInputs) && thisFrameInputs == old(thisFrameInputs)
      ensures finishedPlaybackCount == old(finishedPlaybackCount)
    {
      currentRecording := new Recording.WithRate(recordingFrameRate);
      currentFrame := 0;
      realRecordingTime := 0.0;
      nextPosSyncTime := -1.0;
      nextPropertiesToRecord := [];
      mode := Mode.Record;
    }

    /** Resumes from Pause; otherwise plays the current recording from the
      * start, which throws when there is none. */
    method Play() returns (st: Status)
      requires Valid()
      modifies this, lastFrameInputs, thisFrameInputs
      ensures Valid()
      ensures old(mode) == Mode.Pause ==>
        st == Ok && mode == Playback && currentRecording == old(currentRecording) &&
        currentFrame == old(currentFrame) && playbackTime == old(playbackTime) &&
        lastFrameInputs.entries == old(lastFrameInputs.entries) && thisFrameInputs.entries == old(thisFrameInputs.entries)
      ensures old(mode) != Mode.Pause && old(currentRecording) == null ==>
        st == Failed(NullReference) && mode == old(mode) && currentRecording == null &&
        lastFrameInputs.entries == old(lastFrameInputs.entries) && thisFrameInputs.entries == old(thisFrameInputs.entries)
        && currentFrame == old(currentFrame) && playbackTime == old(playbackTime)
      ensures old(mode) != Mode.Pause && old(currentRecording) != null ==>
        st == Ok && PlaybackStarted(old(currentRecording.frameRate), old(currentRecording.frames), 0.0)
      ensures lastFrameInputs == old(lastFrameInputs) && thisFrameInputs == old(thisFrameInputs)
      ensures inputsToRecord == old(inputsToRecord) && nextPropertiesToRecord == old(nextPropertiesToRecord)
      ensures realRecordingTime == old(realRecordingTime) && nextPosSyncTime == old(nextPosSyncTime)
      ensures finishedPlaybackCount == old(finishedPlaybackCount)
    {
      if mode == Mode.Pause {
        mode := Playback;
        return Ok;
      }
      if currentRecording == null {
        // the copy constructor reads the null recording's rate
        return Failed(NullReference);
      }
      PlayFrom(currentRecording, 0.0);
      return Ok;
    }

    twostate predicate PlaybackStarted(frameRate: int, frames: seq<RecordingFrame>, startTime: real)
      reads this, Footprint()
    {
      mode == Playback && currentRecording != null && fresh(currentRecording) &&
      currentRecording.frameRate == frameRate && currentRecording.frames == frames &&
      currentFrame == RateRecording.ClosestFrame(frameRate, startTime) && playbackTime == startTime &&
      lastFrameInputs.entries == map[] && thisFrameInputs.entries == map[]
    }

    /** Play(recording, startRecordingFromTime): plays a copy of recording
      * from the frame the start time falls in. */
    method PlayFrom(recording: Recording, startRecordingFromTime: real)
      requires recording.frameRate >= 1
      modifies this, lastFrameInputs, thisFrameInputs
      ensures Valid() && PlaybackStarted(old(recording.frameRate), old(recording.frames), startRecordingFromTime)
      ensures lastFrameInputs == old(lastFrameInputs) && thisFrameInputs == old(thisFrameInputs)
      ensures inputsToRecord == old(inputsToRecord) && nextPropertiesToRecord == old(nextPropertiesToRecord)
      ensures realRecordingTime == old(realRecordingTime) && nextPosSyncTime == old(nextPosSyncTime)
      ensures finishedPlaybackCount == old(finishedPlaybackCount)
    {
      currentRecording := new Recording.Copy(recording);
      currentFrame := recording.GetClosestFrame(startRecordingFromTime);
      thisFrameInputs.Clear();
      lastFrameInputs.Clear();
      mode := Playback;
      playbackTime := startRecordingFromTime;
    }

    method Pause()
      modifies this`mode
      ensures mode == Mode.Pause
    {
      mode := Mode.Pause;
    }

    method Stop()
      modifies this`mode, this`currentFrame, this`playbackTime
      ensures mode == Passthru && currentFrame == 0 && playbackTime == 0.0
    {
      mode := Passthru;
      currentFrame := 0;
      playbackTime := 0.0;
    }

    /** Queues a property unless an equal one is already queued. */
    method SyncProperty(propertyName: string, propertyValue: string)
      modifies this`nextPropertiesToRecord
      ensures nextPropertiesToRecord == Enqueued(old(nextPropertiesToRecord), FrameProperty(propertyName, propertyValue))
    {
      var frameProp := FrameProperty(propertyName, propertyValue);
      if frameProp !in nextPropertiesToRecord {
        nextPropertiesToRecord := nextPropertiesToRecord + [frameProp];
      }
    }

    /** Queues the transform's position and rotation; only while recording. */
    method SyncPosition(position: Vector3, eulerAngles: Vector3)
      modifies this`nextPropertiesToRecord
      ensures mode != Mode.Record ==> nextPropertiesToRecord == old(nextPropertiesToRecord)
      ensures mode == Mode.Record ==>
        nextPropertiesToRecord == SyncedQueue(config, old(nextPropertiesToRecord), position, eulerAngles)
    {
      if mode != Mode.Record {
        return;
      }
      SyncProperty("position", config.vectorText(position));
      SyncProperty("rotation", config.vectorText(eulerAngles));
    }

    // -------------------------------------------------------------------
    // LateUpdate in playback

    /** One playback step on values: the "last frame" table becomes the
      * "this frame" one; the frame is located from the playback time; past
      * the last frame playback stops, otherwise the changes of every frame
      * since the previous one are merged into the table and time advances. */
    twostate predicate PlaybackTicked(dt: real, st: Status)
      reads this, Footprint()
    {
      lastFrameInputs == old(thisFrameInputs) && thisFrameInputs == old(thisFrameInputs) &&
      currentRecording == old(currentRecording) &&
      inputsToRecord == old(inputsToRecord) && nextPropertiesToRecord == old(nextPropertiesToRecord) &&
      realRecordingTime == old(realRecordingTime) && nextPosSyncTime == old(nextPosSyncTime) &&
      if old(currentRecording) == null then
        st == Failed(NullReference) && mode == old(mode) && currentFrame == old(currentFrame) &&
        playbackTime == old(playbackTime) && thisFrameInputs.entries == old(thisFrameInputs.entries) &&
        finishedPlaybackCount == old(finishedPlaybackCount)
      else
        var rec := old(currentRecording);
        var cf := RateRecording.ClosestFrame(old(rec.frameRate), old(playbackTime));
        rec.frames == old(rec.frames) && rec.frameRate == old(rec.frameRate) &&
        if cf > old(|rec.frames|) then
          st == Ok && mode == Passthru && currentFrame == 0 && playbackTime == 0.0 &&
          thisFrameInputs.entries == old(thisFrameInputs.entries) &&
          finishedPlaybackCount == old(finishedPlaybackCount) + 1
        else
          mode == old(mode) && currentFrame == cf && finishedPlaybackCount == old(finishedPlaybackCount) &&
          match ChangedOver(old(thisFrameInputs.entries), old(rec.frames), old(currentFrame) + 1, cf)
          case None =>
            st == Failed(NullReference) && playbackTime == old(playbackTime) &&
            thisFrameInputs.entries == old(thisFrameInputs.entries)
          case Some(changed) =>
            st == Ok && playbackTime == old(playbackTime) + dt &&
            thisFrameInputs.entries == old(thisFrameInputs.entries) + changed
    }

    method PlaybackTick(dt: real) returns (st: Status)
      requires Valid()
      modifies this, thisFrameInputs
      ensures Valid() && PlaybackTicked(dt, st)
    {
      lastFrameInputs := thisFrameInputs;
      var rec := currentRecording;
      if rec == null {
        return Failed(NullReference);
      }
      var lastFrame := currentFrame;
      currentFrame := rec.GetClosestFrame(playbackTime);
      if currentFrame > rec.TotalFrames() {
        // end of recording: the finishedPlayback event is raised
        finishedPlaybackCount := finishedPlaybackCount + 1;
        Stop();
        return Ok;
      }
      var changedInputs := CollectChanges(rec, thisFrameInputs.entries, lastFrame + 1, currentFrame);
      if changedInputs.None? {
        return Failed(NullReference);
      }
      MergeChanges(thisFrameInputs, changedInputs.value);
      playbackTime := playbackTime + dt;
      return Ok;
    }

    /** The frame loop of the playback step; None where GetInputs gives null. */
    static method CollectChanges(rec: Recording, latched: map<string, InputInfo>, lo: int, hi: int)
      returns (changed: Option<map<string, InputInfo>>)
      ensures changed == ChangedOver(latched, rec.frames, lo, hi)
    {
      var acc: map<string, InputInfo> := map[];
      var frame := lo;
      while frame <= hi
        invariant lo <= frame && (lo <= hi + 1 ==> frame <= hi + 1)
        invariant hi + 1 < lo ==> frame == lo
        invariant ChangedOver(latched, rec.frames, lo, frame - 1) == Some(acc)
        decreases hi - frame
      {
        var inputs := rec.GetInputs(frame);
        if inputs.None? {
          ChangedOverStaysNone(latched, rec.frames, lo, frame, hi);
          return None;
        }
        acc := ChangesIn(latched, inputs.value, acc);
        frame := frame + 1;
      }
      return Some(acc);
    }

    /** The foreach over one frame's inputs. */
    static method ChangesIn(latched: map<string, InputInfo>, inputs: seq<InputInfo>, acc0: map<string, InputInfo>)
      returns (acc: map<string, InputInfo>)
      ensures acc == ChangedIn(latched, inputs, acc0)
    {
      acc := acc0;
      var i := 0;
      while i < |inputs|
        invariant 0 <= i <= |inputs|
        invariant acc == ChangedIn(latched, inputs[..i], acc0)
      {
        var input := inputs[i];
        assert inputs[..i + 1][..i] == inputs[..i];
        if input.inputName !in latched || !latched[input.inputName].Equals(Some(input)) {
          acc := acc[input.inputName := input];
        }
        i := i + 1;
      }
      assert inputs[..|inputs|] == inputs;
    }

    /** The foreach that writes the changes into the table. */
    static method MergeChanges(table: InputTable, changed: map<string, InputInfo>)
      modifies table
      ensures table.entries == old(table.entries) + changed
    {
      var todo := changed.Keys;
      while todo != {}
        invariant todo <= changed.Keys
        invariant table.entries == old(table.entries) + (map k | k in changed.Keys - todo :: changed[k])
        decreases todo
      {
        var k :| k in todo;
        table.entries := table.entries[k := changed[k]];
        todo := todo - {k};
      }
      assert changed.Keys - todo == changed.Keys;
      assert (map k | k in changed.Keys :: changed[k]) == changed;
    }

    // -------------------------------------------------------------------
    // LateUpdate in record

    twostate predicate RecordTicked(dt: real, tick: Tick, st: Status)
      reads this, Footprint()
      requires old(currentRecording) != null && old(currentRecording.frameRate) >= 1
    {
      var rec := old(currentRecording);
      currentRecording == rec && rec.frameRate == old(rec.frameRate) &&
      realRecordingTime == old(realRecordingTime) + dt &&
      StepResult(st, RecState(rec.frames, inputsToRecord, nextPropertiesToRecord, nextPosSyncTime, currentFrame))
        == RecordUntil(config, old(RecordLoopState()), old(rec.frameRate), old(realRecordingTime) + dt, tick) &&
      mode == old(mode) && playbackTime == old(playbackTime) &&
      lastFrameInputs == old(lastFrameInputs) && thisFrameInputs == old(thisFrameInputs) &&
      finishedPlaybackCount == old(finishedPlaybackCount)
    }

    method RecordTick(dt: real, tick: Tick) returns (st: Status)
      requires Valid() && mode == Mode.Record
      modifies this, currentRecording
      ensures Valid() && RecordTicked(dt, tick, st)
      ensures unchanged(lastFrameInputs, thisFrameInputs)
    {
      realRecordingTime := realRecordingTime + dt;
      var rec := currentRecording;
      ghost var s0 := RecordLoopState();
      while Behind(currentFrame, rec.frameRate, realRecordingTime)
        invariant currentRecording == rec && rec.frameRate == old(rec.frameRate) && mode == Mode.Record
        invariant realRecordingTime == old(realRecordingTime) + dt
        invariant playbackTime == old(playbackTime) && finishedPlaybackCount == old(finishedPlaybackCount)
        invariant lastFrameInputs == old(lastFrameInputs) && thisFrameInputs == old(thisFrameInputs)
        invariant RecordUntil(config, RecordLoopState(), rec.frameRate, realRecordingTime, tick)
               == RecordUntil(config, s0, rec.frameRate, realRecordingTime, tick)
        decreases Gap(currentFrame, rec.frameRate, realRecordingTime)
      {
        ghost var before := RecordLoopState();
        st := RecordFrame(rec, tick);
        if st.Failed? {
          return;
        }
        assert RecordUntil(config, before, rec.frameRate, realRecordingTime, tick)
            == RecordUntil(config, RecordLoopState(), rec.frameRate, realRecordingTime, tick);
      }
      return Ok;
    }

    /** One pass of the record loop. */
    method RecordFrame(rec: Recording, tick: Tick) returns (st: Status)
      requires rec == currentRecording && mode == Mode.Record
      modifies this`inputsToRecord, this`nextPropertiesToRecord, this`nextPosSyncTime, this`currentFrame, rec`frames
      ensures StepResult(st, RecordLoopState()) == RecordStep(config, old(RecordLoopState()), tick)
    {
      if currentFrame >= 0 {
        ghost var s0 := RecordLoopState();
        st := RecordFrameAt(rec, tick);
        assert RecordLoopState() == RecordStep(config, s0, tick).state;
      } else {
        st := RecordFrameBeforeStart(rec, tick);
      }
    }

    /** The loop pass on a valid frame: every write lands in that frame. */
    method RecordFrameAt(rec: Recording, tick: Tick) returns (st: Status)
      requires rec == currentRecording && mode == Mode.Record && currentFrame >= 0
      modifies this`inputsToRecord, this`nextPropertiesToRecord, this`nextPosSyncTime, this`currentFrame, rec`frames
      ensures st == Ok && currentFrame == old(currentFrame) + 1 && nextPropertiesToRecord == []
      ensures inputsToRecord == SampledAll(old(inputsToRecord), tick.live)
      ensures nextPosSyncTime == StepNextSync(config, old(RecordLoopState()), tick)
      ensures EditedTo(rec.frames, old(rec.frames), old(currentFrame),
                       StepInputs(config, old(RecordLoopState()), tick), StepProperties(config, old(RecordLoopState()), tick))
    {
      ghost var s0 := RecordLoopState();
      var f := currentFrame;
      ghost var frames0 := rec.frames;
      // mouse position and buttons, and the inputs
      ghost var props := RecordFrameInputs(rec, f, tick.live);
      assert StepProperties(config, s0, tick) == props + StepQueue(config, s0, tick);
      // synced location and any other properties
      RecordFrameProperties(rec, f, tick, frames0, StepInputs(config, s0, tick), props);
      currentFrame := f + 1;
      st := Ok;
    }

    /** The second part of a loop pass on a valid frame: the position sync
      * when it is due, then the queued properties; the queue ends empty. */
    method RecordFrameProperties(rec: Recording, f: nat, tick: Tick, ghost frames0: seq<RecordingFrame>,
                                 ghost ins: seq<InputInfo>, ghost props: seq<FrameProperty>)
      requires mode == Mode.Record
      requires EditedTo(rec.frames, frames0, f, ins, props)
      modifies this`nextPropertiesToRecord, this`nextPosSyncTime, rec`frames
      ensures nextPropertiesToRecord == []
      ensures nextPosSyncTime == StepNextSync(config, old(RecState(rec.frames, inputsToRecord, nextPropertiesToRecord, nextPosSyncTime, currentFrame)), tick)
      ensures EditedTo(rec.frames, frames0, f, ins,
                       props + StepQueue(config, old(RecState(rec.frames, inputsToRecord, nextPropertiesToRecord, nextPosSyncTime, currentFrame)), tick))
    {
      if config.syncRecordLocations && tick.now > nextPosSyncTime {
        SyncPosition(tick.position, tick.eulerAngles);
        nextPosSyncTime := tick.now + config.syncInterval;
      }
      ghost var queue := nextPropertiesToRecord;
      ghost var before := rec.frames;
      var _ := RecordQueued(rec, f);
      WrittenPropertiesEdit(before, frames0, f, ins, props, queue);
      nextPropertiesToRecord := [];
    }

    /** The first part of a loop pass on a valid frame: the pointer and mouse
      * buttons when recorded, then every sampled input. */
    method RecordFrameInputs(rec: Recording, f: nat, live: LiveInput) returns (ghost props: seq<FrameProperty>)
      modifies this`inputsToRecord, rec`frames
      ensures inputsToRecord == SampledAll(old(inputsToRecord), live)
      ensures props == (if config.recordMouseEvents then [MousePosProperty(config, live)] else [])
      ensures EditedTo(rec.frames, old(rec.frames), f,
                       (if config.recordMouseEvents then MouseButtonInputs() else []) + inputsToRecord, props)
    {
      ghost var frames0 := rec.frames;
      ghost var ins: seq<InputInfo> := [];
      props := [];
      if config.recordMouseEvents {
        ins, props := RecordMouse(rec, f, live);
      }
      assert EditedTo(rec.frames, frames0, f, ins, props);
      ghost var before := rec.frames;
      var _ := RecordInputs(rec, f, live);
      WrittenInputsEdit(before, frames0, f, ins, props, inputsToRecord);
    }

    /** The loop pass on a negative frame: the first write throws, after the
      * sampling and the sync that precede it. */
    method RecordFrameBeforeStart(rec: Recording, tick: Tick) returns (st: Status)
      requires rec == currentRecording && mode == Mode.Record && currentFrame < 0
      modifies this`inputsToRecord, this`nextPropertiesToRecord, this`nextPosSyncTime, this`currentFrame, rec`frames
      ensures StepResult(st, RecordLoopState()) == RecordStep(config, old(RecordLoopState()), tick)
    {
      var f := currentFrame;
      if config.recordMouseEvents {
        st := rec.AddProperty(f, MousePosProperty(config, tick.live));
        return;
      }
      st := RecordInputs(rec, f, tick.live);
      if st.Failed? {
        return;
      }
      // synced location
      if config.syncRecordLocations && tick.now > nextPosSyncTime {
        SyncPosition(tick.position, tick.eulerAngles);
        nextPosSyncTime := tick.now + config.syncInterval;
      }
      st := RecordQueued(rec, f);
      if st.Failed? {
        return;
      }
      nextPropertiesToRecord := [];
      currentFrame := f + 1;
    }

    /** The pointer and the three mouse buttons written into frame f. */
    method RecordMouse(rec: Recording, f: nat, live: LiveInput)
      returns (ghost ins: seq<InputInfo>, ghost props: seq<FrameProperty>)
      modifies rec`frames
      ensures ins == MouseButtonInputs() && props == [MousePosProperty(config, live)]
      ensures rec.frames == RecordedAt(old(rec.frames), f, ins, props)
    {
      ghost var frames0 := rec.frames;
      var mousePos := MousePosProperty(config, live);
      var _ := rec.AddProperty(f, mousePos);
      WriteProperty(frames0, frames0, f, [], [], mousePos);
      props := [mousePos];
      ins := RecordMouseButtons(rec, f, frames0, props);
    }

    /** The three mouse-button writes into frame f, after the pointer. */
    method RecordMouseButtons(rec: Recording, f: nat, ghost frames0: seq<RecordingFrame>, ghost props: seq<FrameProperty>)
      returns (ghost ins: seq<InputInfo>)
      requires props != [] && rec.frames == RecordedAt(frames0, f, [], props)
      modifies rec`frames
      ensures ins == MouseButtonInputs() && rec.frames == RecordedAt(frames0, f, ins, props)
    {
      var i := 0;
      while i < 3
        invariant 0 <= i <= 3
        invariant rec.frames == RecordedAt(frames0, f, MouseButtonInputs()[..i], props)
      {
        var mouseInput := DefaultInputInfo.(inputName := MouseButtonName(i), isAxis := false, mouseButtonNum := i);
        assert mouseInput == MouseButtonInputs()[i];
        assert MouseButtonInputs()[..i + 1] == MouseButtonInputs()[..i] + [mouseInput];
        WriteInput(rec.frames, frames0, f, MouseButtonInputs()[..i], props, mouseInput);
        var _ := rec.AddInput(f, mouseInput);
        i := i + 1;
      }
      ins := MouseButtonInputs();
      assert ins[..3] == ins;
    }

    /** Samples each entry of inputsToRecord in place and writes it into
      * frame f; on a negative frame the first write throws. */
    method RecordInputs(rec: Recording, f: int, live: LiveInput) returns (st: Status)
      modifies this`inputsToRecord, rec`frames
      ensures f >= 0 ==>
        st == Ok && inputsToRecord == SampledAll(old(inputsToRecord), live) &&
        rec.frames == WrittenInputs(old(rec.frames), f, inputsToRecord)
      ensures f < 0 ==> rec.frames == old(rec.frames)
      ensures f < 0 && old(inputsToRecord) == [] ==> st == Ok && inputsToRecord == []
      ensures f < 0 && old(inputsToRecord) != [] ==>
        st == Failed(IndexOutOfRange) &&
        inputsToRecord == old(inputsToRecord)[0 := SampledInput(old(inputsToRecord)[0], live)]
    {
      ghost var inputs0 := inputsToRecord;
      ghost var frames0 := rec.frames;
      ghost var done: seq<InputInfo> := [];
      assert SampledAll(inputs0[..0], live) == [];
      var j := 0;
      while j < |inputsToRecord|
        invariant 0 <= j <= |inputsToRecord| == |inputs0|
        invariant done == SampledAll(inputs0[..j], live)
        invariant inputsToRecord == done + inputs0[j..]
        invariant f >= 0 ==> rec.frames == WrittenInputs(frames0, f, done)
        invariant f < 0 ==> rec.frames == frames0 && j == 0
      {
        assert inputsToRecord[j] == inputs0[j];
        SampleStep(inputs0, j, live);
        st := RecordInput(rec, f, j, live);
        if st.Failed? {
          return;
        }
        assert (done + [inputsToRecord[j]])[..|done|] == done;
        done := done + [inputsToRecord[j]];
        j := j + 1;
      }
      assert inputs0[..j] == inputs0;
      assert inputsToRecord == done;
      return Ok;
    }

    /** Samples entry j of inputsToRecord in place and writes it into frame f. */
    method RecordInput(rec: Recording, f: int, j: nat, live: LiveInput) returns (st: Status)
      requires j < |inputsToRecord|
      modifies this`inputsToRecord, rec`frames
      ensures inputsToRecord == old(inputsToRecord)[j := SampledInput(old(inputsToRecord)[j], live)]
      ensures f < 0 ==> st == Failed(IndexOutOfRange) && rec.frames == old(rec.frames)
      ensures f >= 0 ==> st == Ok && rec.frames == WithInputAt(old(rec.frames), f, inputsToRecord[j])
    {
      var input := inputsToRecord[j];
      if input.isAxis {
        input := input.(axisValue := live.getAxis(input.inputName));
      } else if input.mouseButtonNum >= 0 {
        // mouse buttons are recorded above
        input := input.(buttonState := live.getButton(input.inputName));
      }
      inputsToRecord := inputsToRecord[j := input];
      st := rec.AddInput(f, input);
    }

    /** Writes the queued properties into frame f. */
    method RecordQueued(rec: Recording, f: int) returns (st: Status)
      modifies rec`frames
      ensures f >= 0 ==> st == Ok && rec.frames == WrittenProperties(old(rec.frames), f, nextPropertiesToRecord)
      ensures f < 0 ==> rec.frames == old(rec.frames) && (st == Ok <==> nextPropertiesToRecord == [])
      ensures f < 0 && st.Failed? ==> st == Failed(IndexOutOfRange)
    {
      var queue := nextPropertiesToRecord;
      if f < 0 {
        // the first write fails the list index
        if queue == [] {
          return Ok;
        }
        st := rec.AddProperty(f, queue[0]);
        return;
      }
      ghost var frames0 := rec.frames;
      var k := 0;
      while k < |queue|
        invariant 0 <= k <= |queue|
        invariant rec.frames == WrittenProperties(frames0, f, queue[..k])
      {
        WrittenPropertiesStep(frames0, f, queue, k);
        st := rec.AddProperty(f, queue[k]);
        k := k + 1;
      }
      assert queue[..k] == queue;
      return Ok;
    }

    // -------------------------------------------------------------------
    // LateUpdate

    method LateUpdate(dt: real, tick: Tick) returns (st: Status)
      requires Valid()
      modifies this, Footprint()
      ensures Valid()
      ensures old(mode) == Playback ==> PlaybackTicked(dt, st)
      ensures old(mode) == Mode.Record ==> RecordTicked(dt, tick, st) && unchanged(lastFrameInputs, thisFrameInputs)
      ensures old(mode) == Passthru || old(mode) == Mode.Pause ==>
        st == Ok && unchanged(this) && unchanged(lastFrameInputs, thisFrameInputs)
    {
      if mode == Playback {
        st := PlaybackTick(dt);
      } else if mode == Mode.Record {
        st := RecordTick(dt, tick);
      } else {
        st := Ok;
      }
    }

    // -------------------------------------------------------------------
    // Input replacements: Pause blocks everything, playback answers from
    // the latched table for the names it holds, everything else is live

    function GetButton(buttonName: string, live: LiveInput): (held: bool)
      reads this, thisFrameInputs
      ensures mode == Mode.Pause ==> !held
      ensures mode == Passthru || mode == Mode.Record ==> held == live.getButton(buttonName)
    {
      if mode == Mode.Pause then false
      else if mode == Playback && buttonName in thisFrameInputs.entries then thisFrameInputs.entries[buttonName].buttonState
      else live.getButton(buttonName)
    }

    function GetButtonDown(buttonName: string, live: LiveInput): (down: bool)
      reads this, thisFrameInputs, lastFrameInputs
      ensures mode == Mode.Pause ==> !down
      ensures mode == Playback && buttonName in thisFrameInputs.entries && down ==>
        thisFrameInputs.entries[buttonName].buttonState
      ensures mode == Passthru || mode == Mode.Record ==> down == live.getButtonDown(buttonName)
    {
      if mode == Mode.Pause then false
      else if mode == Playback && buttonName in thisFrameInputs.entries then
        ButtonDownOf(thisFrameInputs.entries, lastFrameInputs.entries, buttonName)
      else live.getButtonDown(buttonName)
    }

    function GetButtonUp(buttonName: string, live: LiveInput): (up: bool)
      reads this, thisFrameInputs, lastFrameInputs
      ensures mode == Mode.Pause ==> !up
      ensures mode == Playback && buttonName in thisFrameInputs.entries && up ==>
        !thisFrameInputs.entries[buttonName].buttonState
      ensures mode == Passthru || mode == Mode.Record ==> up == live.getButtonUp(buttonName)
    {
      if mode == Mode.Pause then false
      else if mode == Playback && buttonName in thisFrameInputs.entries then
        ButtonUpOf(thisFrameInputs.entries, lastFrameInputs.entries, buttonName)
      else live.getButtonUp(buttonName)
    }

    function GetAxis(axisName: string, live: LiveInput): (value: real)
      reads this, thisFrameInputs
      ensures mode == Mode.Pause ==> value == 0.0
      ensures mode == Passthru || mode == Mode.Record ==> value == live.getAxis(axisName)
    {
      if mode == Mode.Pause then 0.0
      else if mode == Playback && axisName in thisFrameInputs.entries then thisFrameInputs.entries[axisName].axisValue
      else live.getAxis(axisName)
    }

    function GetMouseButton(buttonNum: int, live: LiveInput): (held: bool)
      reads this, thisFrameInputs
      ensures mode == Mode.Pause ==> !held
      ensures mode == Passthru || mode == Mode.Record ==> held == live.getMouseButton(buttonNum)
      ensures mode == Playback ==> var m := MouseButtonName(buttonNum);
        held == (if m in thisFrameInputs.entries then thisFrameInputs.entries[m].buttonState
                 else live.getMouseButton(buttonNum))
    {
      var mouseButtonName := MouseButtonName(buttonNum);
      if mode == Mode.Pause then false
      else if mode == Playback && mouseButtonName in thisFrameInputs.entries then thisFrameInputs.entries[mouseButtonName].buttonState
      else live.getMouseButton(buttonNum)
    }

    function GetMouseButtonDown(buttonNum: int, live: LiveInput): (down: bool)
      reads this, thisFrameInputs, lastFrameInputs
      ensures mode == Mode.Pause ==> !down
      ensures mode == Playback && MouseButtonName(buttonNum) in thisFrameInputs.entries && down ==>
        thisFrameInputs.entries[MouseButtonName(buttonNum)].buttonState
      ensures mode == Passthru || mode == Mode.Record ==> down == live.getMouseButtonDown(buttonNum)
      ensures mode == Playback ==> var m := MouseButtonName(buttonNum);
        var t := thisFrameInputs.entries; var l := lastFrameInputs.entries;
        if m in t then (down <==> t[m].buttonState && (m !in l || !l[m].buttonState))
        else down == live.getMouseButtonDown(buttonNum)
    {
      var mouseButtonName := MouseButtonName(buttonNum);
      if mode == Mode.Pause then false
      else if mode == Playback && mouseButtonName in thisFrameInputs.entries then
        ButtonDownOf(thisFrameInputs.entries, lastFrameInputs.entries, mouseButtonName)
      else live.getMouseButtonDown(buttonNum)
    }

    function GetMouseButtonUp(buttonNum: int, live: LiveInput): (up: bool)
      reads this, thisFrameInputs, lastFrameInputs
      ensures mode == Mode.Pause ==> !up
      ensures mode == Playback && MouseButtonName(buttonNum) in thisFrameInputs.entries && up ==>
        !thisFrameInputs.entries[MouseButtonName(buttonNum)].buttonState
      ensures mode == Passthru || mode == Mode.Record ==> up == live.getMouseButtonUp(buttonNum)
      ensures mode == Playback ==> var m := MouseButtonName(buttonNum);
        var t := thisFrameInputs.entries; var l := lastFrameInputs.entries;
        if m in t then (up <==> !t[m].buttonState && (m !in l || l[m].buttonState))
        else up == live.getMouseButtonUp(buttonNum)
    {
      var mouseButtonName := MouseButtonName(buttonNum);
      if mode == Mode.Pause then false
      else if mode == Playback && mouseButtonName in thisFrameInputs.entries then
        ButtonUpOf(thisFrameInputs.entries, lastFrameInputs.entries, mouseButtonName)
      else live.getMouseButtonUp(buttonNum)
    }

    /** In playback the recording is read without a null check. */
    function MousePosition(live: LiveInput): (r: Result<Vector3>)
      reads this, currentRecording
      ensures r.Failure? <==> mode == Playback && currentRecording == null
      ensures mode == Mode.Pause ==> r == Success(Zero3)
      ensures mode == Passthru || mode == Mode.Record ==> r == Success(live.mousePosition)
      ensures mode == Playback && currentRecording != null ==>
        r == Success(PointerAt(config, currentRecording.frames, currentFrame, live))
    {
      if mode == Mode.Pause then Success(Zero3)
      else if mode == Playback then
        if currentRecording == null then Failure(NullReference)
        else Success(PointerAt(config, currentRecording.frames, currentFrame, live))
      else Success(live.mousePosition)
    }

    /** The property of the current frame; the recording is read without a null check. */
    function GetProperty(propertyName: string): (r: Result<Option<string>>)
      reads this, currentRecording
      ensures r.Failure? <==> currentRecording == null
      ensures r.Success? && r.value.Some? ==> 0 <= currentFrame < |currentRecording.frames|
      ensures currentRecording != null ==>
        r == Success(PropertyAt(currentRecording.frames, currentFrame, propertyName))
    {
      if currentRecording == null then Failure(NullReference)
      else Success(PropertyAt(currentRecording.frames, currentFrame, propertyName))
    }
  }

  // ---------------------------------------------------------------------
  // Properties of the playback sweep

  /** Every entry collected from one frame is keyed by its name and differs
    * from the latched table; every differing input of the frame is
    * collected; and nothing else joins the collection. */
  lemma {:induction false} ChangedInFacts(latched: map<string, InputInfo>, xs: seq<InputInfo>, acc: map<string, InputInfo>)
    requires forall k :: k in acc ==> acc[k].inputName == k && Differs(latched, acc[k])
    ensures var r := ChangedIn(latched, xs, acc);
      acc.Keys <= r.Keys &&
      (forall k :: k in r ==> r[k].inputName == k && Differs(latched, r[k])) &&
      (forall i :: 0 <= i < |xs| && Differs(latched, xs[i]) ==> xs[i].inputName in r) &&
      (forall k :: k in r ==> k in acc || exists i :: 0 <= i < |xs| && xs[i].inputName == k)
    decreases |xs|
  {
    if xs != [] {
      var xs' := xs[..|xs| - 1];
      ChangedInFacts(latched, xs', acc);
      var m := ChangedIn(latched, xs', acc);
      forall k | k in ChangedIn(latched, xs, acc) && k !in acc
        ensures exists i :: 0 <= i < |xs| && xs[i].inputName == k
      {
        if k in m {
          var i :| 0 <= i < |xs'| && xs'[i].inputName == k;
          assert xs[i] == xs'[i];
        } else {
          assert xs[|xs| - 1].inputName == k;
        }
      }
      forall i | 0 <= i < |xs| && Differs(latched, xs[i])
        ensures xs[i].inputName in ChangedIn(latched, xs, acc)
      {
        if i < |xs'| {
          assert xs[i] == xs'[i];
        }
      }
    }
  }

  /** The sweep over frames lo .. hi marks every change, however brief: each
    * input in those frames that differs from the latched table is collected,
    * and every collected entry is keyed by its name and differs. */
  lemma {:induction false} ChangedOverCollectsAll(latched: map<string, InputInfo>, frames: seq<RecordingFrame>, lo: int, hi: int)
    requires ChangedOver(latched, frames, lo, hi).Some?
    ensures var ch := ChangedOver(latched, frames, lo, hi).value;
      (forall k :: k in ch ==> ch[k].inputName == k && Differs(latched, ch[k])) &&
      (forall fr, i ::
         lo <= fr <= hi && 0 <= fr < |frames| && 0 <= i < |frames[fr].inputs| && Differs(latched, frames[fr].inputs[i]) ==>
         frames[fr].inputs[i].inputName in ch)
    decreases if hi < lo then 0 else hi - lo + 1
  {
    if lo <= hi {
      ChangedOverCollectsAll(latched, frames, lo, hi - 1);
      var acc := ChangedOver(latched, frames, lo, hi - 1).value;
      ChangedInFacts(latched, frames[hi].inputs, acc);
    }
  }

  /** A press that is released again before the next game frame stays
    * latched: the release equals the latched state, so it is not collected
    * over the press. */
  lemma BriefPressIsLatched(b: string)
    ensures var released := InputInfo(b, false, -1, false, 0.0);
      var pressed := released.(buttonState := true);
      var frames := [RecordingFrame(0.0, [pressed], []), RecordingFrame(0.0, [released], [])];
      ChangedOver(map[b := released], frames, 0, 1) == Some(map[b := pressed])
  {
    var released := InputInfo(b, false, -1, false, 0.0);
    var pressed := released.(buttonState := true);
    var frames := [RecordingFrame(0.0, [pressed], []), RecordingFrame(0.0, [released], [])];
    var latched := map[b := released];
    assert [pressed][..0] == [] && [released][..0] == [];
    assert ChangedIn(latched, [pressed], map[]) == map[b := pressed];
    assert ChangedIn(latched, [released], map[b := pressed]) == map[b := pressed];
    assert ChangedOver(latched, frames, 0, -1) == Some(map[]);
    assert ChangedOver(latched, frames, 0, 0) == Some(map[b := pressed]);
  }

  // ---------------------------------------------------------------------
  // Properties of the record loop

  /** A recorded frame reads back, for each name, the last write made with
    * it, or what the frame held before. */
  lemma RecordedAtReadsLastWrite(frames: seq<RecordingFrame>, f: nat, ins: seq<InputInfo>, props: seq<FrameProperty>, name: string)
    ensures var ext := RateRecording.Extended(frames, f, EmptyRecordingFrame);
      var after := RecordedAt(frames, f, ins, props);
      var i := Keyed.LastIndexOf(ins, InputName, name);
      var p := Keyed.LastIndexOf(props, PropertyName, name);
      |after| == |ext| && (forall j :: 0 <= j < |after| && j != f ==> after[j] == ext[j]) &&
      InputAt(after, f, name) == (if 0 <= i then Some(ins[i]) else InputAt(ext, f, name)) &&
      PropertyAt(after, f, name) == (if 0 <= p then Some(props[p].property) else PropertyAt(ext, f, name))
  {
    var ext := RateRecording.Extended(frames, f, EmptyRecordingFrame);
    RateRecording.ExtendedKeepsPrefix(frames, f, EmptyRecordingFrame);
    Keyed.UpsertAllFinds(ext[f].inputs, InputName, ins, name);
    Keyed.UpsertAllFinds(ext[f].syncedProperties, PropertyName, props, name);
  }

  /** The record loop stops only once the recorded time has caught up with
    * real time, and never moves the frame back. */
  lemma {:induction false} RecordUntilCatchesUp(cfg: Config, s: RecState, frameRate: int, time: real, tick: Tick)
    requires frameRate >= 1
    ensures var r := RecordUntil(cfg, s, frameRate, time, tick);
      r.state.currentFrame >= s.currentFrame &&
      (r.status == Ok ==> !Behind(r.state.currentFrame, frameRate, time))
    decreases Gap(s.currentFrame, frameRate, time)
  {
    if Behind(s.currentFrame, frameRate, time) {
      var r := RecordStep(cfg, s, tick);
      if r.status.Ok? {
        RecordUntilCatchesUp(cfg, r.state, frameRate, time, tick);
      }
    }
  }

  /** A pass over a non-negative frame writes every sampled input and every
    * queued property into it, empties the queue and moves to the next frame. */
  lemma RecordStepRecordsFrame(cfg: Config, s: RecState, tick: Tick, name: string)
    requires s.currentFrame >= 0
    ensures var r := RecordStep(cfg, s, tick);
      var sampled := SampledAll(s.inputsToRecord, tick.live);
      var i := Keyed.LastIndexOf(sampled, InputName, name);
      r.status == Ok && r.state.queue == [] && r.state.currentFrame == s.currentFrame + 1 &&
      r.state.inputsToRecord == sampled &&
      (0 <= i ==> InputAt(r.state.frames, s.currentFrame, name) == Some(sampled[i]))
  {
    var sampled := SampledAll(s.inputsToRecord, tick.live);
    var f: nat := s.currentFrame;
    var ins := StepInputs(cfg, s, tick);
    var props := StepProperties(cfg, s, tick);
    var i := Keyed.LastIndexOf(sampled, InputName, name);
    if 0 <= i {
      var pre := if cfg.recordMouseEvents then MouseButtonInputs() else [];
      assert ins == pre + sampled;
      assert ins[|pre| + i] == sampled[i];
      assert Keyed.LastIndexOf(ins, InputName, name) == |pre| + i;
      var after := RecordedAt(s.frames, f, ins, props);
      assert RecordStep(cfg, s, tick).state.frames == after;
      RecordedAtReadsLastWrite(s.frames, f, ins, props, name);
      assert InputAt(after, f, name) == Some(sampled[i]);
    }
  }

  // ---------------------------------------------------------------------
  // Properties of the queries

  /** While paused every query is blocked: false, 0 or the zero vector. */
  lemma PauseBlocksQueries(vcr: InputVCR, name: string, buttonNum: int, live: LiveInput)
    requires vcr.mode == Mode.Pause
    ensures !vcr.GetButton(name, live) && !vcr.GetButtonDown(name, live) && !vcr.GetButtonUp(name, live)
    ensures vcr.GetAxis(name, live) == 0.0 && vcr.MousePosition(live) == Success(Zero3)
    ensures !vcr.GetMouseButton(buttonNum, live) && !vcr.GetMouseButtonDown(buttonNum, live) && !vcr.GetMouseButtonUp(buttonNum, live)
  {
  }

  /** In playback a name held in the latched table is answered from it, with
    * went down / went up against the last-frame table; any other name, and
    * every name outside playback and pause, is answered live. */
  lemma QueriesReadLatchedOrLive(vcr: InputVCR, name: string, live: LiveInput)
    requires vcr.mode != Mode.Pause
    ensures var t := vcr.thisFrameInputs.entries;
      var l := vcr.lastFrameInputs.entries;
      if vcr.mode == Playback && name in t then
        vcr.GetButton(name, live) == t[name].buttonState && vcr.GetAxis(name, live) == t[name].axisValue &&
        (vcr.GetButtonDown(name, live) <==> t[name].buttonState && (name !in l || !l[name].buttonState)) &&
        (vcr.GetButtonUp(name, live) <==> !t[name].buttonState && (name !in l || l[name].buttonState))
      else
        vcr.GetButton(name, live) == live.getButton(name) && vcr.GetAxis(name, live) == live.getAxis(name) &&
        vcr.GetButtonDown(name, live) == live.getButtonDown(name) && vcr.GetButtonUp(name, live) == live.getButtonUp(name)
  {
  }

  /** In playback a mouse button latched under its recorded name is answered
    * exactly as the button of that name: held, went down and went up. */
  lemma MouseQueriesReadLatchedButton(vcr: InputVCR, buttonNum: int, live: LiveInput)
    requires vcr.mode == Playback && MouseButtonName(buttonNum) in vcr.thisFrameInputs.entries
    ensures var m := MouseButtonName(buttonNum);
      vcr.GetMouseButton(buttonNum, live) == vcr.GetButton(m, live) &&
      vcr.GetMouseButtonDown(buttonNum, live) == vcr.GetButtonDown(m, live) &&
      vcr.GetMouseButtonUp(buttonNum, live) == vcr.GetButtonUp(m, live)
  {
  }

  // ---------------------------------------------------------------------
  // Discrepancies between the code and its evident intent

  /** The playback step makes the "last frame" table the very object of the
    * "this frame" one, so a latched button is never reported as went down or
    * went up. */
  lemma AliasedTablesHideEdges(entries: map<string, InputInfo>, b: string)
    requires b in entries
    ensures !ButtonDownOf(entries, entries, b) && !ButtonUpOf(entries, entries, b)
  {
  }

  /** With the "last frame" table a copy of the latched one, a button whose
    * collected change has the latched entry's kind is reported as went down
    * exactly when it was latched released, and as went up otherwise. */
  lemma CopiedSnapshotsShowPress(latched: map<string, InputInfo>, frames: seq<RecordingFrame>, lo: int, hi: int, b: string)
    requires ChangedOver(latched, frames, lo, hi).Some?
    requires var ch := ChangedOver(latched, frames, lo, hi).value;
      b in latched && latched[b].inputName == b && b in ch &&
      !latched[b].isAxis && !ch[b].isAxis && ch[b].mouseButtonNum == latched[b].mouseButtonNum
    ensures var now := latched + ChangedOver(latched, frames, lo, hi).value;
      b in now &&
      (ButtonDownOf(now, latched, b) <==> !latched[b].buttonState) &&
      (ButtonUpOf(now, latched, b) <==> latched[b].buttonState)
  {
    ChangedOverCollectsAll(latched, frames, lo, hi);
    var ch := ChangedOver(latched, frames, lo, hi).value;
    assert ch[b].inputName == b && Differs(latched, ch[b]);
    assert ch[b].buttonState != latched[b].buttonState;
    assert (latched + ch)[b] == ch[b];
  }

  /** The end-of-recording test as intended: a frame at or past the frame
    * count ends playback. */
  predicate PlaybackEnded(frame: int, totalFrames: nat)
  {
    frame >= totalFrames
  }

  /** As written (`>`), the frame equal to the frame count passes the test
    * and the sweep then reads that frame, which is not in the recording. */
  lemma EndCheckLetsSweepPastEnd(latched: map<string, InputInfo>, frames: seq<RecordingFrame>, lastFrame: int)
    requires -1 <= lastFrame < |frames|
    ensures !(|frames| > |frames|) && ChangedOver(latched, frames, lastFrame + 1, |frames|) == None
  {
    ChangedOverDefined(latched, frames, lastFrame + 1, |frames|);
  }

  /** With the intended test, a sweep from a frame the previous step left
    * continues only over frames of the recording. */
  lemma EndCheckKeepsSweepInRange(latched: map<string, InputInfo>, frames: seq<RecordingFrame>, lastFrame: int, frame: int)
    requires -1 <= lastFrame && !PlaybackEnded(frame, |frames|)
    ensures ChangedOver(latched, frames, lastFrame + 1, frame).Some?
  {
    ChangedOverDefined(latched, frames, lastFrame + 1, frame);
  }

  /** Sweeping from the start frame itself, the first step after Play
    * latches every input of that frame (all of them differ from the
    * cleared table). */
  lemma SweepFromStartLatchesStartFrame(frames: seq<RecordingFrame>, start: int, frame: int)
    requires 0 <= start <= frame < |frames|
    ensures var ch := ChangedOver(map[], frames, start, frame);
      ch.Some? && forall i :: 0 <= i < |frames[start].inputs| ==> frames[start].inputs[i].inputName in ch.value
  {
    ChangedOverDefined(map[], frames, start, frame);
    ChangedOverCollectsAll(map[], frames, start, frame);
  }

  /** The record loop's sampling as intended: axes and plain buttons read
    * live input, mouse buttons are left to the mouse-button writes. */
  function IntendedSampledInput(x: InputInfo, live: LiveInput): (y: InputInfo)
    ensures y.inputName == x.inputName && y.isAxis == x.isAxis && y.mouseButtonNum == x.mouseButtonNum
    ensures x.isAxis ==> y.axisValue == live.getAxis(x.inputName) && y.buttonState == x.buttonState
    ensures !x.isAxis && x.mouseButtonNum < 0 ==> y.buttonState == live.getButton(x.inputName) && y.axisValue == x.axisValue
    ensures !x.isAxis && x.mouseButtonNum >= 0 ==> y == x
  {
    if x.isAxis then x.(axisValue := live.getAxis(x.inputName))
    else if x.mouseButtonNum < 0 then x.(buttonState := live.getButton(x.inputName))
    else x
  }

  /** As written, a plain button keeps whatever state it was configured with. */
  lemma PlainButtonsAreNotSampled(x: InputInfo, live: LiveInput)
    requires !x.isAxis && x.mouseButtonNum < 0
    ensures SampledInput(x, live) == x
    ensures live.getButton(x.inputName) != x.buttonState ==> SampledInput(x, live) != IntendedSampledInput(x, live)
  {
  }

  /** The mouse-button writes as intended: each button's live state. */
  function IntendedMouseButtonInputs(live: LiveInput): (xs: seq<InputInfo>)
    ensures |xs| == 3
    ensures forall i :: 0 <= i < 3 ==>
      xs[i].inputName == MouseButtonName(i) && xs[i].mouseButtonNum == i && !xs[i].isAxis &&
      xs[i].buttonState == live.getMouseButton(i)
  {
    seq(3, i => InputInfo(MouseButtonName(i), false, i, live.getMouseButton(i), 0.0))
  }

  /** The pointer property as intended: written under the name mousePosition
    * reads. */
  function IntendedMousePosProperty(cfg: Config, live: LiveInput): FrameProperty
  {
    FrameProperty(QueriedMousePosName, cfg.mouseText(live.mousePosition))
  }

  /** As written, recording the pointer does not change what mousePosition
    * reads from that frame: the names differ in case. */
  lemma RecordedPointerIsNeverQueried(cfg: Config, frames: seq<RecordingFrame>, f: nat, live: LiveInput, now: LiveInput)
    ensures PointerAt(cfg, WithPropertyAt(frames, f, MousePosProperty(cfg, live)), f, now)
         == PointerAt(cfg, RateRecording.Extended(frames, f, EmptyRecordingFrame), f, now)
  {
    assert RecordedMousePosName != QueriedMousePosName by {
      assert RecordedMousePosName[5] != QueriedMousePosName[5];
    }
    AddPropertyThenGet(frames, f, MousePosProperty(cfg, live), QueriedMousePosName);
  }

  /** With the intended name, playback reads back the recorded pointer
    * whenever its text parses. */
  lemma RecordedPointerIsReadBack(cfg: Config, frames: seq<RecordingFrame>, f: nat, live: LiveInput, now: LiveInput, v: Vector3)
    requires cfg.mouseText(live.mousePosition) != "" && cfg.parsePointer(cfg.mouseText(live.mousePosition)) == Some(v)
    ensures PointerAt(cfg, WithPropertyAt(frames, f, IntendedMousePosProperty(cfg, live)), f, now) == v
  {
    AddPropertyThenGet(frames, f, IntendedMousePosProperty(cfg, live), QueriedMousePosName);
  }

  // ---------------------------------------------------------------------
  // Scenarios

  /** Settings with no mouse recording and no position sync. */
  function PlainConfig(): Config
  {
    Config(false, false, 1.0, v => "", v => "", t => None)
  }

  /** A plain button recorded at one frame per second stays released in the
    * recording whatever the live button says. */
  method HeldButtonRecordedReleased(live: LiveInput) returns (st: Status, frames: seq<RecordingFrame>)
    ensures st == Ok && InputAt(frames, 0, "Jump") == Some(InputInfo("Jump", false, -1, false, 0.0))
  {
    var jump := InputInfo("Jump", false, -1, false, 0.0);
    var vcr := new InputVCR(PlainConfig(), 1, [jump]);
    vcr.Record();
    var tick := Tick(live, 0.0, Zero3, Zero3);
    ghost var s0 := vcr.RecordLoopState();
    assert s0 == RecState([], [jump], [], -1.0, 0);
    assert SampledAll([jump], live) == [jump];
    assert RecordStep(PlainConfig(), s0, tick).state.frames == [RecordingFrame(0.0, [jump], [])] by {
      RateRecording.ExtendedKeepsPrefix([], 0, EmptyRecordingFrame);
      assert RateRecording.Extended([], 0, EmptyRecordingFrame) == [EmptyRecordingFrame];
      assert [jump][..0] == [];
      assert Keyed.UpsertAll([], InputName, [jump]) == Keyed.Upsert([], InputName, jump) == [jump];
      assert Keyed.UpsertAll([], PropertyName, []) == [];
    }
    ghost var r := RecordStep(PlainConfig(), s0, tick);
    assert Behind(0, 1, 1.0) && !Behind(1, 1, 1.0);
    assert r.status == Ok && r.state.currentFrame == 1;
    assert RecordUntil(PlainConfig(), r.state, 1, 1.0, tick) == StepResult(Ok, r.state);
    assert RecordUntil(PlainConfig(), s0, 1, 1.0, tick) == StepResult(Ok, r.state);
    st := vcr.LateUpdate(1.0, tick);
    frames := vcr.currentRecording.frames;
    assert frames == [RecordingFrame(0.0, [jump], [])];
  }

  /** A component playing, from time 0 at one frame per second, a recording
    * whose frame 1 holds a "Fire" press. */
  method StartPressPlayback(pressed: InputInfo) returns (vcr: InputVCR)
    requires pressed.inputName == "Fire"
    ensures fresh(vcr) && vcr.Valid() && fresh(vcr.Footprint())
    ensures vcr.mode == Playback && vcr.currentRecording != null && vcr.currentRecording.frameRate == 1
    ensures vcr.currentRecording.frames == [EmptyRecordingFrame, RecordingFrame(0.0, [pressed], [])]
    ensures vcr.currentFrame == 0 && vcr.playbackTime == 0.0 && vcr.thisFrameInputs.entries == map[]
  {
    vcr := new InputVCR(PlainConfig(), 1, []);
    var rec := new Recording.WithRate(1);
    RateRecording.ExtendedKeepsPrefix([], 1, EmptyRecordingFrame);
    assert Keyed.Upsert([], InputName, pressed) == [pressed];
    var _ := rec.AddInput(1, pressed);
    assert rec.frames == [EmptyRecordingFrame, RecordingFrame(0.0, [pressed], [])];
    vcr.PlayFrom(rec, 0.0);
  }

  /** After two playback steps a recorded press is latched, and because the
    * two tables are one object it is never reported as went down. */
  method PlaybackHidesPress(live: LiveInput) returns (vcr: InputVCR)
    ensures vcr.mode == Playback && vcr.GetButton("Fire", live) && !vcr.GetButtonDown("Fire", live)
  {
    var pressed := InputInfo("Fire", false, -1, true, 0.0);
    vcr := StartPressPlayback(pressed);
    var tick := Tick(live, 0.0, Zero3, Zero3);
    var st1 := vcr.LateUpdate(1.0, tick);
    assert vcr.currentFrame == 0 && vcr.playbackTime == 1.0;
    assert [pressed][..0] == [];
    assert vcr.currentRecording.frames[1].inputs == [pressed];
    assert ChangedIn(map[], [pressed], map[]) == map["Fire" := pressed];
    assert ChangedOver(map[], vcr.currentRecording.frames, 1, 0) == Some(map[]);
    assert ChangedOver(map[], vcr.currentRecording.frames, 1, 1) == Some(map["Fire" := pressed]);
    var st2 := vcr.LateUpdate(1.0, tick);
    assert vcr.thisFrameInputs.entries == map["Fire" := pressed];
  }

  /** A fresh component playing, from time 0 at one frame per second, a
    * recording whose frame 0 holds pressed and frame 1 released. */
  method StartPressReleasePlayback(pressed: InputInfo, released: InputInfo) returns (vcr: InputVCR)
    requires pressed.inputName == released.inputName == "Fire"
    ensures fresh(vcr) && vcr.Valid() && fresh(vcr.Footprint())
    ensures vcr.mode == Playback && vcr.currentRecording != null && vcr.currentRecording.frameRate == 1
    ensures vcr.currentRecording.frames == [RecordingFrame(0.0, [pressed], []), RecordingFrame(0.0, [released], [])]
    ensures vcr.currentFrame == 0 && vcr.playbackTime == 0.0 && vcr.thisFrameInputs.entries == map[]
  {
    vcr := new InputVCR(PlainConfig(), 1, []);
    var rec := new Recording.WithRate(1);
    RateRecording.ExtendedKeepsPrefix([], 0, EmptyRecordingFrame);
    assert Keyed.Upsert([], InputName, pressed) == [pressed];
    var _ := rec.AddInput(0, pressed);
    assert rec.frames == [RecordingFrame(0.0, [pressed], [])];
    RateRecording.ExtendedKeepsPrefix(rec.frames, 1, EmptyRecordingFrame);
    assert Keyed.Upsert([], InputName, released) == [released];
    var _ := rec.AddInput(1, released);
    assert rec.frames == [RecordingFrame(0.0, [pressed], []), RecordingFrame(0.0, [released], [])];
    vcr.PlayFrom(rec, 0.0);
  }

  /** The press of frame 0 is never reported: Play leaves the cursor on
    * frame 0, the first step stays there, and the sweeps start one past the
    * cursor, so after two steps only the release of frame 1 is latched. */
  method StartFramePressIsSkipped(live: LiveInput) returns (vcr: InputVCR)
    ensures vcr.mode == Playback && vcr.currentFrame == 1
    ensures vcr.thisFrameInputs.entries == map["Fire" := InputInfo("Fire", false, -1, false, 0.0)]
    ensures !vcr.GetButton("Fire", live) && !vcr.GetButtonDown("Fire", live)
  {
    var pressed := InputInfo("Fire", false, -1, true, 0.0);
    var released := pressed.(buttonState := false);
    vcr := StartPressReleasePlayback(pressed, released);
    var tick := Tick(live, 0.0, Zero3, Zero3);
    var st1 := vcr.LateUpdate(1.0, tick);
    assert vcr.currentFrame == 0 && vcr.playbackTime == 1.0;
    assert [released][..0] == [];
    assert vcr.currentRecording.frames[1].inputs == [released];
    assert ChangedIn(map[], [released], map[]) == map["Fire" := released];
    assert ChangedOver(map[], vcr.currentRecording.frames, 1, 0) == Some(map[]);
    assert ChangedOver(map[], vcr.currentRecording.frames, 1, 1) == Some(map["Fire" := released]);
    var st2 := vcr.LateUpdate(1.0, tick);
  }

  /** Playing a one-frame recording at one frame per second: the second step
    * reaches the frame equal to the frame count and throws. */
  method PlaybackAtEndFaults(live: LiveInput) returns (st1: Status, st2: Status)
    ensures st1 == Ok && st2 == Failed(NullReference)
  {
    var vcr := new InputVCR(PlainConfig(), 1, []);
    var rec := new Recording.WithRate(1);
    var _ := rec.AddInput(0, InputInfo("Fire", false, -1, true, 0.0));
    vcr.PlayFrom(rec, 0.0);
    var tick := Tick(live, 0.0, Zero3, Zero3);
    st1 := vcr.LateUpdate(1.0, tick);
    assert vcr.currentFrame == 0 && vcr.playbackTime == 1.0;
    st2 := vcr.LateUpdate(1.0, tick);
  }
}
