/** The fragment of Python list semantics that the pager relies on: the
    integer run `range(a, b + 1)`, slicing with clipped and negative bounds,
    and indexing with negative positions, which raises `IndexError` when the
    position is outside the list.
 */
module PyList {
  import opened Wrappers

  /** The exceptions Python list operations can raise here. */
  datatype PyError = IndexError

  function Max(a: int, b: int): int { if a < b then b else a }

  function Min(a: int, b: int): int { if a < b then a else b }

  /** The contiguous run of integers a, a+1, ..., b (empty when b < a). */
  function Span(a: int, b: int): (r: seq<int>)
    ensures |r| == Max(b - a + 1, 0)
    ensures forall x :: x in r <==> a <= x <= b
    ensures forall k :: 0 <= k < |r| ==> r[k] == a + k
    decreases b - a
  {
    if b < a then [] else Span(a, b - 1) + [b]
  }

  /** True when s is strictly increasing. */
  predicate Increasing(s: seq<int>) {
    forall i, j :: 0 <= i < j < |s| ==> s[i] < s[j]
  }

  /** How Python turns a slice bound into a position in a list of length len:
      a negative bound counts from the end, and the result is clipped to 0..len. */
  function Clip(i: int, len: nat): (k: nat)
    ensures k <= len
    ensures 0 <= i ==> k == Min(i, len)
    ensures i < 0 ==> k == Max(i + len, 0)
  {
    if i < 0 then (if i + len < 0 then 0 else i + len)
    else if i > len then len
    else i
  }

  /** Python's s[i:j]: never fails, empty when the clipped bounds cross. */
  function Slice<T>(s: seq<T>, i: int, j: int): (r: seq<T>)
    ensures |r| == Max(Clip(j, |s|) - Clip(i, |s|), 0)
    ensures forall k :: 0 <= k < |r| ==> r[k] == s[Clip(i, |s|) + k]
  {
    var lo := Clip(i, |s|);
    var hi := Clip(j, |s|);
    if lo < hi then s[lo..hi] else []
  }

  /** Python's s[i]: a negative position counts from the end; out of range raises IndexError. */
  function At<T>(s: seq<T>, i: int): (r: Result<T, PyError>)
    ensures r.Success? <==> -|s| <= i < |s|
    ensures r.Success? && 0 <= i ==> r.value == s[i]
    ensures r.Success? && i < 0 ==> r.value == s[|s| + i]
  {
    if 0 <= i < |s| then Success(s[i])
    else if -|s| <= i < 0 then Success(s[|s| + i])
    else Failure(IndexError)
  }

  /** Slicing the run 1..n gives again a run, whose ends are the clipped bounds. */
  lemma SliceOfSpan(n: nat, i: int, j: int)
    ensures Slice(Span(1, n), i, j) == Span(Clip(i, n) + 1, Clip(j, n))
  {
    var s := Span(1, n);
    var r := Slice(s, i, j);
    var t := Span(Clip(i, n) + 1, Clip(j, n));
    assert |r| == |t|;
    forall k | 0 <= k < |r|
      ensures r[k] == t[k]
    {
      assert r[k] == s[Clip(i, n) + k];
    }
  }

  /** Python's -1 index yields the largest element of a non-empty run and
      index 0 the smallest. */
  lemma EndsOfSpan(a: int, b: int)
    requires a <= b
    ensures At(Span(a, b), 0) == Success(a)
    ensures At(Span(a, b), -1) == Success(b)
  {
  }

  /** A run is strictly increasing. */
  lemma SpanIncreasing(a: int, b: int)
    ensures Increasing(Span(a, b))
  {
    var s := Span(a, b);
    forall i, j | 0 <= i < j < |s|
      ensures s[i] < s[j]
    {
      assert s[i] == a + i && s[j] == a + j;
    }
  }
}
