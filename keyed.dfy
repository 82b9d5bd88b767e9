/** Lists of records identified by a string key, as every version of the
  * recording keeps them: a frame's inputs are keyed by input id, its
  * properties by name. Writes overwrite the FIRST entry with the same key or
  * append; dictionaries are overlaid entry by entry, later entries winning. */
module Keyed {
  import opened Common

  /** Index of the first entry with key k, or |xs| when there is none. */
  function IndexOf<T>(xs: seq<T>, key: T -> string, k: string): (i: nat)
    ensures i <= |xs|
    ensures forall j :: 0 <= j < i ==> key(xs[j]) != k
    ensures i < |xs| ==> key(xs[i]) == k
    decreases |xs|
  {
    if xs == [] then 0
    else if key(xs[0]) == k then 0
    else 1 + IndexOf(xs[1..], key, k)
  }

  /** The first entry with key k, if any. */
  function Find<T>(xs: seq<T>, key: T -> string, k: string): Option<T>
  {
    var i := IndexOf(xs, key, k);
    if i < |xs| then Some(xs[i]) else None
  }

  predicate HasKey<T>(xs: seq<T>, key: T -> string, k: string)
  {
    exists j :: 0 <= j < |xs| && key(xs[j]) == k
  }

  /** No two entries share a key. */
  predicate UniqueKeys<T>(xs: seq<T>, key: T -> string)
  {
    forall i, j :: 0 <= i < j < |xs| ==> key(xs[i]) != key(xs[j])
  }

  /** Overwrite the first entry with x's key, or append x. */
  function Upsert<T>(xs: seq<T>, key: T -> string, x: T): seq<T>
  {
    var i := IndexOf(xs, key, key(x));
    if i < |xs| then xs[i := x] else xs + [x]
  }

  /** Upsert every element of ys, in order. */
  function UpsertAll<T>(xs: seq<T>, key: T -> string, ys: seq<T>): seq<T>
    decreases |ys|
  {
    if ys == [] then xs
    else Upsert(UpsertAll(xs, key, ys[..|ys| - 1]), key, ys[|ys| - 1])
  }

  /** Dictionary overlay: m[key(y)] := y for each y of ys, in order. */
  function Overlay<T>(m: map<string, T>, key: T -> string, ys: seq<T>): map<string, T>
    decreases |ys|
  {
    if ys == [] then m
    else Overlay(m, key, ys[..|ys| - 1])[key(ys[|ys| - 1]) := ys[|ys| - 1]]
  }

  /** Index of the LAST entry with key k, or -1 when there is none. */
  function LastIndexOf<T>(xs: seq<T>, key: T -> string, k: string): (i: int)
    ensures -1 <= i < |xs|
    ensures forall j :: i < j < |xs| ==> key(xs[j]) != k
    ensures 0 <= i ==> key(xs[i]) == k
    decreases |xs|
  {
    if xs == [] then -1
    else if key(xs[|xs| - 1]) == k then |xs| - 1
    else LastIndexOf(xs[..|xs| - 1], key, k)
  }

  /** The last entry with key k, if any. */
  function FindLast<T>(xs: seq<T>, key: T -> string, k: string): Option<T>
  {
    var i := LastIndexOf(xs, key, k);
    if 0 <= i then Some(xs[i]) else None
  }

  /** The search loop the source runs before overwriting or reading an entry. */
  method FirstIndexOf<T>(xs: seq<T>, key: T -> string, k: string) returns (i: nat)
    ensures i == IndexOf(xs, key, k)
  {
    i := 0;
    while i < |xs| && key(xs[i]) != k
      invariant i <= |xs|
      invariant forall j :: 0 <= j < i ==> key(xs[j]) != k
    {
      i := i + 1;
    }
  }

  lemma FindHasKey<T>(xs: seq<T>, key: T -> string, k: string)
    ensures Find(xs, key, k).Some? <==> HasKey(xs, key, k)
    ensures Find(xs, key, k).Some? ==> key(Find(xs, key, k).value) == k
  {
    if HasKey(xs, key, k) {
      var j :| 0 <= j < |xs| && key(xs[j]) == k;
      assert IndexOf(xs, key, k) <= j;
    }
  }

  /** With unique keys the first and the last entry for a key coincide. */
  lemma {:induction false} FindIsFindLastWhenUnique<T>(xs: seq<T>, key: T -> string, k: string)
    requires UniqueKeys(xs, key)
    ensures Find(xs, key, k) == FindLast(xs, key, k)
  {
    var i, j := IndexOf(xs, key, k), LastIndexOf(xs, key, k);
    if i < |xs| {
      assert i <= j;
    } else if 0 <= j {
      assert false;
    }
  }

  /** After an upsert the key of x finds x. */
  lemma UpsertFindsNew<T>(xs: seq<T>, key: T -> string, x: T)
    ensures Find(Upsert(xs, key, x), key, key(x)) == Some(x)
  {
    var i := IndexOf(xs, key, key(x));
    var ys := Upsert(xs, key, x);
    assert key(ys[i]) == key(x);
    assert forall j :: 0 <= j < i ==> ys[j] == xs[j];
    assert IndexOf(ys, key, key(x)) == i;
  }

  /** An upsert leaves every other key's entry as it was. */
  lemma UpsertFindsOthers<T>(xs: seq<T>, key: T -> string, x: T, k: string)
    requires k != key(x)
    ensures Find(Upsert(xs, key, x), key, k) == Find(xs, key, k)
  {
    var i := IndexOf(xs, key, key(x));
    var ys := Upsert(xs, key, x);
    var a := IndexOf(xs, key, k);
    assert forall j :: 0 <= j < |xs| && j != i ==> ys[j] == xs[j];
    if a < |xs| {
      assert a != i;
      assert IndexOf(ys, key, k) == a;
    } else {
      assert forall j :: 0 <= j < |ys| ==> key(ys[j]) != k;
      assert IndexOf(ys, key, k) == |ys|;
    }
  }

  /** An upsert replaces an entry (same length) exactly when the key was present,
    * and otherwise adds exactly one. */
  lemma UpsertLength<T>(xs: seq<T>, key: T -> string, x: T)
    ensures HasKey(xs, key, key(x)) ==> |Upsert(xs, key, x)| == |xs|
    ensures !HasKey(xs, key, key(x)) ==> Upsert(xs, key, x) == xs + [x]
  {
    FindHasKey(xs, key, key(x));
  }

  /** Upserts keep keys unique. */
  lemma UpsertKeepsUnique<T>(xs: seq<T>, key: T -> string, x: T)
    requires UniqueKeys(xs, key)
    ensures UniqueKeys(Upsert(xs, key, x), key)
  {
    var i := IndexOf(xs, key, key(x));
    var ys := Upsert(xs, key, x);
    if i < |xs| {
      forall a, b | 0 <= a < b < |ys| ensures key(ys[a]) != key(ys[b]) {
        if a == i {
          assert key(ys[a]) == key(xs[a]);
        } else if b == i {
          assert key(ys[b]) == key(xs[b]);
        }
      }
    } else {
      forall a, b | 0 <= a < b < |ys| ensures key(ys[a]) != key(ys[b]) {
        if b == |xs| {
          assert key(xs[a]) != key(x);
        }
      }
    }
  }

  /** Writing the same key twice: the second write wins and no entry is added. */
  lemma UpsertTwice<T>(xs: seq<T>, key: T -> string, x: T, y: T)
    requires key(x) == key(y)
    ensures Upsert(Upsert(xs, key, x), key, y) == Upsert(xs, key, y)
  {
    var i := IndexOf(xs, key, key(x));
    var ys := Upsert(xs, key, x);
    assert forall j :: 0 <= j < i ==> ys[j] == xs[j];
    assert i < |ys| && ys[i] == x;
    assert IndexOf(ys, key, key(y)) == i;
  }

  lemma {:induction false} UpsertAllAppend<T>(xs: seq<T>, key: T -> string, a: seq<T>, b: seq<T>)
    ensures UpsertAll(xs, key, a + b) == UpsertAll(UpsertAll(xs, key, a), key, b)
    decreases |b|
  {
    if b == [] {
      assert a + b == a;
    } else {
      var b' := b[..|b| - 1];
      assert (a + b)[..|a + b| - 1] == a + b';
      assert (a + b)[|a + b| - 1] == b[|b| - 1];
      UpsertAllAppend(xs, key, a, b');
    }
  }

  /** Upserting into a list whose keys are unique keeps them unique. */
  lemma {:induction false} UpsertAllKeepsUnique<T>(xs: seq<T>, key: T -> string, ys: seq<T>)
    requires UniqueKeys(xs, key)
    ensures UniqueKeys(UpsertAll(xs, key, ys), key)
    decreases |ys|
  {
    if ys != [] {
      UpsertAllKeepsUnique(xs, key, ys[..|ys| - 1]);
      UpsertKeepsUnique(UpsertAll(xs, key, ys[..|ys| - 1]), key, ys[|ys| - 1]);
    }
  }

  /** Reference reading of an upsert series: a key finds the last write made
    * with it, or what the list held before. */
  lemma {:induction false} UpsertAllFinds<T>(xs: seq<T>, key: T -> string, ys: seq<T>, k: string)
    ensures Find(UpsertAll(xs, key, ys), key, k)
         == if 0 <= LastIndexOf(ys, key, k) then Some(ys[LastIndexOf(ys, key, k)]) else Find(xs, key, k)
    decreases |ys|
  {
    if ys != [] {
      var ys' := ys[..|ys| - 1];
      var y := ys[|ys| - 1];
      UpsertAllFinds(xs, key, ys', k);
      if key(y) == k {
        UpsertFindsNew(UpsertAll(xs, key, ys'), key, y);
      } else {
        UpsertFindsOthers(UpsertAll(xs, key, ys'), key, y, k);
        assert LastIndexOf(ys, key, k) == LastIndexOf(ys', key, k);
      }
    }
  }

  /** Reference reading of an overlay: a key maps to the last entry of ys with
    * that key, or keeps what m held. */
  lemma {:induction false} OverlayIsLastWrite<T>(m: map<string, T>, key: T -> string, ys: seq<T>, k: string)
    ensures k in Overlay(m, key, ys) <==> (0 <= LastIndexOf(ys, key, k) || k in m)
    ensures 0 <= LastIndexOf(ys, key, k) ==> Overlay(m, key, ys)[k] == ys[LastIndexOf(ys, key, k)]
    ensures LastIndexOf(ys, key, k) < 0 && k in m ==> Overlay(m, key, ys)[k] == m[k]
    decreases |ys|
  {
    if ys != [] {
      var ys' := ys[..|ys| - 1];
      OverlayIsLastWrite(m, key, ys', k);
      if key(ys[|ys| - 1]) != k {
        assert LastIndexOf(ys, key, k) == LastIndexOf(ys', key, k);
      }
    }
  }

  /** Overlaying one more entry of a prefix writes that entry last. */
  lemma OverlayPrefixStep<T>(m: map<string, T>, key: T -> string, ys: seq<T>, j: int)
    requires 0 <= j < |ys|
    ensures Overlay(m, key, ys[..j + 1]) == Overlay(m, key, ys[..j])[key(ys[j]) := ys[j]]
  {
    assert ys[..j + 1][..j] == ys[..j];
  }

  lemma OverlayAppend<T>(m: map<string, T>, key: T -> string, a: seq<T>, b: seq<T>)
    ensures Overlay(m, key, a + b) == Overlay(Overlay(m, key, a), key, b)
    decreases |b|
  {
    if b == [] {
      assert a + b == a;
    } else {
      assert (a + b)[..|a + b| - 1] == a + b[..|b| - 1];
      OverlayAppend(m, key, a, b[..|b| - 1]);
    }
  }
}
