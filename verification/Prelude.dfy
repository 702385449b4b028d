/** Notions shared by several modules. */
module Prelude {
  datatype Option<+T> = None | Some(value: T)

  /** A sequence without the element at `i`. */
  function Removed<T>(s: seq<T>, i: nat): seq<T>
    requires i < |s|
  {
    s[..i] + s[i + 1..]
  }

  lemma RemovedIs<T>(s: seq<T>, i: nat)
    requires i < |s|
    ensures |Removed(s, i)| == |s| - 1
    ensures forall k :: 0 <= k < |s| - 1 ==> Removed(s, i)[k] == s[if k < i then k else k + 1]
  {
  }

  lemma RemovedKeeps<T>(s: seq<T>, i: nat)
    requires i < |s|
    ensures |Removed(s, i)| == |s| - 1
    ensures forall k :: 0 <= k < |s| && k != i ==> Removed(s, i)[if k < i then k else k - 1] == s[k]
  {
  }
}
