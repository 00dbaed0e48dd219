/** Small building blocks shared by every screen of the dashboard model:
    an optional value (JavaScript's `null`/`undefined`), the array `filter`
    used by every list update, and removal of one element by index. */
module Common {

  /** A value that may be missing, as a React state initialised to `null`. */
  datatype Option<+T> = None | Some(value: T) {

    /** The value, or a fallback when it is missing. */
    function GetOr(default: T): T {
      match this
      case Some(v) => v
      case None => default
    }
  }

  /** `a` is an order-preserving subsequence of `b`: `a` is obtained from `b`
      by deleting some elements and keeping the others in their order. */
  predicate Subsequence<T(==)>(a: seq<T>, b: seq<T>)
    decreases |b|
  {
    if |a| == 0 then true
    else if |b| == 0 then false
    else if a[0] == b[0] then Subsequence(a[1..], b[1..])
    else Subsequence(a, b[1..])
  }

  /** JavaScript's `Array.prototype.filter`: the elements of `s` that satisfy
      `keep`, in their original order. The result keeps every kept element as
      often as it occurs in `s` and drops every other one. */
  function Filter<T(==,!new)>(s: seq<T>, keep: T -> bool): (r: seq<T>)
    ensures |r| <= |s|
    ensures Subsequence(r, s)
    ensures forall i :: 0 <= i < |r| ==> keep(r[i])
    ensures forall x :: multiset(r)[x] == if keep(x) then multiset(s)[x] else 0
    decreases |s|
  {
    if |s| == 0 then []
    else
      var rest := Filter(s[1..], keep);
      assert s == [s[0]] + s[1..];
      if keep(s[0]) then
        [s[0]] + rest
      else
        assert |rest| > 0 ==> rest[0] != s[0];
        rest
  }

  /** Filtering a second time with the same predicate changes nothing. */
  lemma {:induction false} FilterIdempotent<T(!new)>(s: seq<T>, keep: T -> bool)
    ensures Filter(Filter(s, keep), keep) == Filter(s, keep)
    decreases |s|
  {
    if |s| > 0 {
      FilterIdempotent(s[1..], keep);
    }
  }

  /** When every element is kept, the filter returns its input. */
  lemma {:induction false} FilterKeepsAll<T(!new)>(s: seq<T>, keep: T -> bool)
    requires forall i :: 0 <= i < |s| ==> keep(s[i])
    ensures Filter(s, keep) == s
    decreases |s|
  {
    if |s| > 0 {
      FilterKeepsAll(s[1..], keep);
      assert s == [s[0]] + s[1..];
    }
  }

  /** `list.filter((_, i) => i !== index)`: the element at `index` is removed
      and the others keep their order; an index outside the list removes
      nothing. */
  function RemoveAt<T>(s: seq<T>, index: int): (r: seq<T>)
    ensures 0 <= index < |s| ==> |r| == |s| - 1
    ensures !(0 <= index < |s|) ==> r == s
    ensures forall j :: 0 <= j < |r| && j < index ==> r[j] == s[j]
    ensures forall j :: 0 <= index <= j < |r| ==> r[j] == s[j + 1]
  {
    if 0 <= index < |s| then s[..index] + s[index + 1..] else s
  }
}
