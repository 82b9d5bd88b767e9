/** Vocabulary shared by every version of the recorder: failure reporting, the
  * live-input capability the recorders forward to, a caller-owned list buffer,
  * and the few pieces of the engine's standard library the core relies on
  * (integer formatting and float clamping, stated over unbounded numbers). */
module Common {

  datatype Option<T> = None | Some(value: T)

  /** The exceptions the core code can raise, one constructor per distinct cause. */
  datatype Fault =
    | EmptyRecording      // InvalidDataException: time lookup on a recording with no frames
    | FrameNotAfterEnd    // ArgumentException: a frame appended at or before the current end
    | FrameOutOfRange     // ArgumentException: a frame index outside the recorded range
    | IndexOutOfRange     // ArgumentOutOfRangeException: a negative list index
    | NullReference       // NullReferenceException: a member reached through a null reference

  /** Outcome of an operation that returns nothing but may throw. */
  datatype Status = Ok | Failed(fault: Fault)

  /** Outcome of an operation that returns a value or throws. */
  datatype Result<T> = Success(value: T) | Failure(fault: Fault)

  /** An engine key code; the engine's enumeration is not part of this model. */
  type KeyCode = int

  datatype Vector3 = Vector3(x: real, y: real, z: real)

  const Zero3: Vector3 := Vector3(0.0, 0.0, 0.0)

  /** The engine's live input, sampled once per tick: an oracle the recorders
    * either forward to or record from. */
  datatype LiveInput = LiveInput(
    getKey: string -> bool,
    getKeyDown: string -> bool,
    getKeyUp: string -> bool,
    getKeyCode: KeyCode -> bool,
    getButton: string -> bool,
    getButtonDown: string -> bool,
    getButtonUp: string -> bool,
    getAxis: string -> real,
    getMouseButton: int -> bool,
    getMouseButtonDown: int -> bool,
    getMouseButtonUp: int -> bool,
    mousePosition: Vector3)

  /** A queue that skips a value already queued: SaveProperty and
    * SyncProperty enqueue this way. */
  function Enqueued<T(==)>(queue: seq<T>, p: T): seq<T>
  {
    if p in queue then queue else queue + [p]
  }

  predicate NoDuplicates<T(==)>(s: seq<T>)
  {
    forall i, j :: 0 <= i < j < |s| ==> s[i] != s[j]
  }

  /** A caller-owned list that bulk reads append to. */
  class Buffer<T> {
    var items: seq<T>

    constructor ()
      ensures items == []
    {
      items := [];
    }

    method Clear()
      modifies this
      ensures items == []
    {
      items := [];
    }

    method AddRange(xs: seq<T>)
      modifies this
      ensures items == old(items) + xs
    {
      items := items + xs;
    }
  }

  /** The engine's float clamp: the lower bound is tested first, so with
    * max < min a value below min yields min and any other value yields max. */
  function Clamp(value: real, min: real, max: real): (r: real)
    ensures min <= max ==> min <= r <= max
    ensures min <= value <= max ==> r == value
  {
    if value < min then min else if value > max then max else value
  }

  /** Float-to-int cast: truncation toward zero. */
  function Truncate(x: real): (r: int)
    ensures x >= 0.0 ==> r as real <= x < r as real + 1.0
    ensures x < 0.0 ==> r as real - 1.0 < x <= r as real
  {
    if x >= 0.0 then x.Floor else -((-x).Floor)
  }

  function DigitChar(d: int): char
    requires 0 <= d < 10
  {
    "0123456789"[d]
  }

  function NatToString(n: nat): string
    decreases n
  {
    if n < 10 then [DigitChar(n)] else NatToString(n / 10) + [DigitChar(n % 10)]
  }

  /** Decimal text of an integer, as int.ToString() prints it. */
  function IntToString(n: int): string
  {
    if n < 0 then "-" + NatToString(-n) else NatToString(n)
  }
}
