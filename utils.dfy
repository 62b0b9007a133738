/**
 * Small helpers over maps and sequences that never alter their receiver:
 * a lookup with a default, an append and a removal by index, each returning
 * a new collection.
 */
module Utils {

  /** An optional value; `Unwrap` on `None` is a runtime panic, so it requires `Some`. */
  datatype Option<T> = None | Some(value: T) {
    function Unwrap(): (v: T)
      requires Some?
      ensures this == Some(v)
    {
      value
    }
  }

  /**
   * The value stored under `key`, or `default` (the type's default value)
   * when the key is absent. The map itself is a value and is left as it was.
   */
  function GetOrDefault<K, V>(m: map<K, V>, key: K, default: V): (v: V)
    ensures key in m ==> v == m[key]
    ensures key !in m ==> v == default
  {
    if key in m then m[key] else default
  }

  /** A copy of `s` with `item` appended; `s` itself is unchanged. */
  function Push<T>(s: seq<T>, item: T): (r: seq<T>)
    ensures |r| == |s| + 1
    ensures r[..|s|] == s && r[|s|] == item
  {
    s + [item]
  }

  /**
   * A copy of `s` without its element at `idx`; the underlying removal
   * panics out of range, so `idx` must be an index of `s`.
   */
  function RemoveIdx<T>(s: seq<T>, idx: nat): (r: seq<T>)
    requires idx < |s|
    ensures |r| == |s| - 1
    ensures r[..idx] == s[..idx] && r[idx..] == s[idx + 1..]
    ensures multiset(r) + multiset{s[idx]} == multiset(s)
  {
    assert s == s[..idx] + [s[idx]] + s[idx + 1..];
    s[..idx] + s[idx + 1..]
  }

  /**
   * `push` as the code performs it: the vector is cloned into a fresh buffer
   * one slot longer and `item` is written into the last slot. The receiver
   * is a value and is left as it was; the result is the appended sequence.
   */
  method PushImmut<T>(s: seq<T>, item: T) returns (result: seq<T>)
    ensures result == Push(s, item)
  {
    var buffer := new T[|s| + 1](_ => item);
    var i := 0;
    while i < |s|
      invariant 0 <= i <= |s|
      invariant forall k :: 0 <= k < i ==> buffer[k] == s[k]
      invariant buffer[|s|] == item
    {
      buffer[i] := s[i];
      i := i + 1;
    }
    result := buffer[..];
    assert result == s + [item];
  }

  /**
   * `remove_idx` as the code performs it: the vector is cloned into a fresh
   * buffer, the elements after `idx` are shifted one place to the left and
   * the last slot is dropped. The result is `s` without its element at `idx`.
   */
  method RemoveImmut<T>(s: seq<T>, idx: nat) returns (result: seq<T>)
    requires idx < |s|
    ensures result == RemoveIdx(s, idx)
  {
    var buffer := new T[|s|](i requires 0 <= i < |s| => s[i]);
    var i := idx;
    while i < |s| - 1
      invariant idx <= i <= |s| - 1
      invariant forall k :: 0 <= k < idx ==> buffer[k] == s[k]
      invariant forall k :: idx <= k < i ==> buffer[k] == s[k + 1]
      invariant forall k :: i <= k < |s| ==> buffer[k] == s[k]
    {
      buffer[i] := buffer[i + 1];
      i := i + 1;
    }
    result := buffer[..|s| - 1];
    assert result == s[..idx] + s[idx + 1..];
  }
}
