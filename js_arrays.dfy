/**
  The few Array.prototype operations the game relies on, over sequences:
  find, findIndex, flatMap and slice with non-negative bounds.
*/
module JsArrays {
  import opened Wrappers

  function Min(a: int, b: int): int { if a <= b then a else b }

  /** findIndex: the first index whose element satisfies p, or None (-1 in the source). */
  function FindIndex<T>(s: seq<T>, p: T -> bool): (r: Option<nat>)
    ensures r.Some? ==> r.value < |s| && p(s[r.value]) && forall k :: 0 <= k < r.value ==> !p(s[k])
    ensures r.None? <==> forall k :: 0 <= k < |s| ==> !p(s[k])
  {
    if |s| == 0 then None
    else if p(s[0]) then Some(0)
    else match FindIndex(s[1..], p)
      case None => None
      case Some(k) => Some(k + 1)
  }

  /** find: the first element satisfying p, or None (undefined in the source). */
  function Find<T>(s: seq<T>, p: T -> bool): (r: Option<T>)
    ensures r.Some? <==> exists k :: 0 <= k < |s| && p(s[k])
    ensures r.Some? ==> p(r.value) && r.value in s
  {
    match FindIndex(s, p)
    case None => None
    case Some(k) => Some(s[k])
  }

  /** find returns the element at the first index that satisfies p. */
  lemma FindAt<T>(s: seq<T>, p: T -> bool, n: nat)
    requires n < |s| && p(s[n])
    requires forall k :: 0 <= k < n ==> !p(s[k])
    ensures FindIndex(s, p) == Some(n)
    ensures Find(s, p) == Some(s[n])
  {
  }

  /** slice(from) for a non-negative start: clamps the start to the length. */
  function SliceFrom<T>(s: seq<T>, from: nat): (r: seq<T>)
    ensures |r| == |s| - Min(from, |s|)
    ensures forall k :: 0 <= k < |r| ==> r[k] == s[Min(from, |s|) + k]
  {
    s[Min(from, |s|)..]
  }

  /** slice(0, to) for a non-negative end: clamps the end to the length. */
  function SliceTo<T>(s: seq<T>, to: nat): (r: seq<T>)
    ensures |r| == Min(to, |s|)
    ensures forall k :: 0 <= k < |r| ==> r[k] == s[k]
  {
    s[..Min(to, |s|)]
  }

  /** flatMap: the results of f on each element, concatenated in order. */
  function FlatMap<T, U>(s: seq<T>, f: T -> seq<U>): seq<U> {
    if |s| == 0 then [] else f(s[0]) + FlatMap(s[1..], f)
  }

  /** When f always yields w entries, entry w * p + k of the flatMap is entry k of f(s[p]). */
  lemma {:induction false} FlatMapUniform<T, U>(s: seq<T>, f: T -> seq<U>, w: nat, p: nat, k: nat)
    requires forall i :: 0 <= i < |s| ==> |f(s[i])| == w
    ensures |FlatMap(s, f)| == w * |s|
    ensures p < |s| && k < w && w * p + k < |FlatMap(s, f)| ==> FlatMap(s, f)[w * p + k] == f(s[p])[k]
  {
    if |s| > 0 {
      var q := if p == 0 then 0 else p - 1;
      FlatMapUniform(s[1..], f, w, q, k);
      assert w * |s| == w + w * (|s| - 1);
      if 0 < p < |s| && k < w {
        assert s[1..][q] == s[p];
        assert w * p == w + w * q;
      }
    }
  }
}
