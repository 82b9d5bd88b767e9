/** The playback side of the runtime recorders: the "this frame" and "last
  * frame" dictionaries latched from recorded frames, the sweep that overlays
  * every frame crossed in one tick, and the edge queries derived from two
  * latched snapshots. */
module Latch {
  import opened Common
  import Keyed
  import opened Timeline

  type InputTable = map<string, InputState>
  type PropertyTable = map<string, FrameProperty>

  function Inputs(f: Frame): seq<InputState> { f.inputManagerStates }

  function Properties(f: Frame): seq<FrameProperty> { f.syncedProperties }

  /** Overlay the entries of frames lo .. hi-1, in order, onto m. */
  function Sweep<T>(m: map<string, T>, frames: seq<Frame>, lo: int, hi: int,
                    field: Frame -> seq<T>, key: T -> string): map<string, T>
    requires 0 <= lo && (lo < hi ==> hi <= |frames|)
    decreases hi - lo
  {
    if hi <= lo then m
    else Keyed.Overlay(Sweep(m, frames, lo, hi - 1, field, key), key, field(frames[hi - 1]))
  }

  /** Reference definition: the entry for k in the latest frame of lo .. hi-1
    * that has one (the last such entry within that frame). */
  function Latest<T>(frames: seq<Frame>, lo: int, hi: int,
                     field: Frame -> seq<T>, key: T -> string, k: string): Option<T>
    requires 0 <= lo && (lo < hi ==> hi <= |frames|)
    decreases hi - lo
  {
    if hi <= lo then None
    else
      var i := Keyed.LastIndexOf(field(frames[hi - 1]), key, k);
      if 0 <= i then Some(field(frames[hi - 1])[i])
      else Latest(frames, lo, hi - 1, field, key, k)
  }

  function SweepInputs(m: InputTable, frames: seq<Frame>, lo: int, hi: int): InputTable
    requires 0 <= lo && (lo < hi ==> hi <= |frames|)
  {
    Sweep(m, frames, lo, hi, Inputs, InputKey)
  }

  function SweepProperties(m: PropertyTable, frames: seq<Frame>, lo: int, hi: int): PropertyTable
    requires 0 <= lo && (lo < hi ==> hi <= |frames|)
  {
    Sweep(m, frames, lo, hi, Properties, PropertyKey)
  }

  /** A button is held in a snapshot when it is present and pressed; an absent
    * id counts as released. */
  predicate Held(m: InputTable, id: string)
  {
    id in m && m[id].buttonState
  }

  predicate RisingEdge(thisFrame: InputTable, lastFrame: InputTable, id: string)
  {
    Held(thisFrame, id) && !Held(lastFrame, id)
  }

  predicate FallingEdge(thisFrame: InputTable, lastFrame: InputTable, id: string)
  {
    !Held(thisFrame, id) && Held(lastFrame, id)
  }

  /** A latched axis value; 0 for an absent id. */
  function AxisOf(m: InputTable, id: string): real
  {
    if id in m then m[id].axisValue else 0.0
  }

  /** A latched property value; the empty string for an absent name. */
  function PropertyOf(m: PropertyTable, name: string): string
  {
    if name in m then m[name].value else ""
  }

  /** The sweep loop of playback: latches frames firstFrame .. lastFrame in
    * order (none when lastFrame < firstFrame), reading each through the caches. */
  method LatchFrames(rec: Recording, firstFrame: int, lastFrame: int, inputs: InputTable, props: PropertyTable,
                     inputCache: Buffer<InputState>, propCache: Buffer<FrameProperty>)
    returns (inputs': InputTable, props': PropertyTable)
    requires 0 <= firstFrame && lastFrame < |rec.frames|
    modifies inputCache, propCache
    ensures inputs' == SweepInputs(inputs, rec.frames, firstFrame, lastFrame + 1)
    ensures props' == SweepProperties(props, rec.frames, firstFrame, lastFrame + 1)
  {
    inputs', props' := inputs, props;
    var checkFrame := firstFrame;
    while checkFrame <= lastFrame
      invariant firstFrame <= checkFrame
      invariant firstFrame <= lastFrame + 1 ==> checkFrame <= lastFrame + 1
      invariant lastFrame + 1 < firstFrame ==> checkFrame == firstFrame
      invariant inputs' == SweepInputs(inputs, rec.frames, firstFrame, checkFrame)
      invariant props' == SweepProperties(props, rec.frames, firstFrame, checkFrame)
    {
      inputs' := LatchInputs(rec, checkFrame, inputs', inputCache);
      props' := LatchProperties(rec, checkFrame, props', propCache);
      checkFrame := checkFrame + 1;
    }
  }

  /** One crossed frame's inputs, read into the cache and written over the
    * snapshot entry by entry. */
  method LatchInputs(rec: Recording, checkFrame: int, inputs: InputTable, cache: Buffer<InputState>)
    returns (inputs': InputTable)
    requires 0 <= checkFrame < |rec.frames|
    modifies cache
    ensures inputs' == Keyed.Overlay(inputs, InputKey, rec.frames[checkFrame].inputManagerStates)
  {
    cache.Clear();
    var got := rec.GetInputs(checkFrame, cache);
    inputs' := inputs;
    var j := 0;
    while j < |cache.items|
      invariant 0 <= j <= |cache.items|
      invariant cache.items == rec.frames[checkFrame].inputManagerStates
      invariant inputs' == Keyed.Overlay(inputs, InputKey, cache.items[..j])
    {
      var input := cache.items[j];
      Keyed.OverlayPrefixStep(inputs, InputKey, cache.items, j);
      inputs' := inputs'[input.inputId := input];
      j := j + 1;
    }
    assert cache.items[..j] == rec.frames[checkFrame].inputManagerStates;
  }

  method LatchProperties(rec: Recording, checkFrame: int, props: PropertyTable, cache: Buffer<FrameProperty>)
    returns (props': PropertyTable)
    requires 0 <= checkFrame < |rec.frames|
    modifies cache
    ensures props' == Keyed.Overlay(props, PropertyKey, rec.frames[checkFrame].syncedProperties)
  {
    cache.Clear();
    var got := rec.GetProperties(checkFrame, cache);
    props' := props;
    var j := 0;
    while j < |cache.items|
      invariant 0 <= j <= |cache.items|
      invariant cache.items == rec.frames[checkFrame].syncedProperties
      invariant props' == Keyed.Overlay(props, PropertyKey, cache.items[..j])
    {
      var prop := cache.items[j];
      Keyed.OverlayPrefixStep(props, PropertyKey, cache.items, j);
      props' := props'[prop.name := prop];
      j := j + 1;
    }
    assert cache.items[..j] == rec.frames[checkFrame].syncedProperties;
  }

  // ---------------------------------------------------------------------

  /** The sweep agrees with the reference definition: after a tick, a key maps
    * to the latest recorded entry among the crossed frames, and keys no crossed
    * frame mentions keep their latched entry. */
  lemma {:induction false} SweepIsLatest<T>(m: map<string, T>, frames: seq<Frame>, lo: int, hi: int,
                                             field: Frame -> seq<T>, key: T -> string, k: string)
    requires 0 <= lo && (lo < hi ==> hi <= |frames|)
    ensures var s := Sweep(m, frames, lo, hi, field, key);
      var l := Latest(frames, lo, hi, field, key, k);
      (l.Some? ==> k in s && s[k] == l.value) &&
      (l.None? ==> (k in s <==> k in m) && (k in m ==> s[k] == m[k]))
    decreases hi - lo
  {
    if hi > lo {
      SweepIsLatest(m, frames, lo, hi - 1, field, key, k);
      Keyed.OverlayIsLastWrite(Sweep(m, frames, lo, hi - 1, field, key), key, field(frames[hi - 1]), k);
    }
  }

  /** Two consecutive ticks sweep the same as one tick over both ranges. */
  lemma {:induction false} SweepSplit<T>(m: map<string, T>, frames: seq<Frame>, lo: int, mid: int, hi: int,
                                          field: Frame -> seq<T>, key: T -> string)
    requires 0 <= lo <= mid <= hi <= |frames|
    ensures Sweep(Sweep(m, frames, lo, mid, field, key), frames, mid, hi, field, key)
         == Sweep(m, frames, lo, hi, field, key)
    decreases hi - mid
  {
    if hi > mid {
      SweepSplit(m, frames, lo, mid, hi - 1, field, key);
    }
  }

  /** When the last crossed frame holds a sample for id, the latched state is
    * that sample, whatever the earlier crossed frames held. */
  lemma LastCrossedFrameWins(m: InputTable, frames: seq<Frame>, lo: int, hi: int, id: string, s: InputState)
    requires 0 <= lo < hi <= |frames|
    requires Keyed.FindLast(Inputs(frames[hi - 1]), InputKey, id) == Some(s)
    ensures id in SweepInputs(m, frames, lo, hi) && SweepInputs(m, frames, lo, hi)[id] == s
  {
    SweepIsLatest(m, frames, lo, hi, Inputs, InputKey, id);
  }

  /** A tick that crosses a press and its release in one sweep reports no
    * rising edge when the button was released before the tick and is released
    * in the last crossed frame: the intermediate pulse is merged away. */
  lemma SweepMergesPulse(lastFrame: InputTable, frames: seq<Frame>, lo: int, hi: int, id: string, s: InputState)
    requires 0 <= lo < hi <= |frames|
    requires Keyed.FindLast(Inputs(frames[hi - 1]), InputKey, id) == Some(s) && !s.buttonState
    ensures !RisingEdge(SweepInputs(lastFrame, frames, lo, hi), lastFrame, id)
    ensures Held(lastFrame, id) ==> FallingEdge(SweepInputs(lastFrame, frames, lo, hi), lastFrame, id)
  {
    LastCrossedFrameWins(lastFrame, frames, lo, hi, id, s);
  }

  /** Edge detection when playback lands on every frame in turn: with a sample
    * for id in frames k-1 and k, landing on frame k reports a rising edge
    * exactly when the sample goes from released to pressed, and a falling edge
    * exactly when it goes from pressed to released. */
  lemma StepwiseEdges(m: InputTable, frames: seq<Frame>, k: int, id: string, before: InputState, after: InputState)
    requires 1 <= k < |frames|
    requires Keyed.FindLast(Inputs(frames[k - 1]), InputKey, id) == Some(before)
    requires Keyed.FindLast(Inputs(frames[k]), InputKey, id) == Some(after)
    ensures var last := SweepInputs(m, frames, 0, k);
      var now := SweepInputs(last, frames, k, k + 1);
      now == SweepInputs(m, frames, 0, k + 1) &&
      (RisingEdge(now, last, id) <==> after.buttonState && !before.buttonState) &&
      (FallingEdge(now, last, id) <==> !after.buttonState && before.buttonState)
  {
    SweepSplit(m, frames, 0, k, k + 1, Inputs, InputKey);
    LastCrossedFrameWins(m, frames, 0, k, id, before);
    LastCrossedFrameWins(m, frames, 0, k + 1, id, after);
  }
}
