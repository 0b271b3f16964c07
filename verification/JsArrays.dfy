/** The two array methods the search is built from, with JavaScript's
    semantics: `Array.prototype.filter` and `Array.prototype.slice` (integer
    arguments, negative ones counted from the end). */
module JsArrays {

  function Min(a: int, b: int): int { if a <= b then a else b }
  function Max(a: int, b: int): int { if a >= b then a else b }

  /** The elements of `s` that `keep` accepts, in their original order. */
  function Filter<T>(s: seq<T>, keep: T -> bool): (r: seq<T>)
    ensures |r| <= |s|
    ensures forall k :: 0 <= k < |r| ==> keep(r[k])
    ensures forall x | x in r :: x in s && keep(x)
    ensures forall x | x in s && keep(x) :: x in r
  {
    if |s| == 0 then []
    else (if keep(s[0]) then [s[0]] else []) + Filter(s[1..], keep)
  }

  /** Filtering distributes over concatenation; in particular the relative
      order of the kept elements is the order of the input. */
  lemma {:induction false} FilterAppend<T>(a: seq<T>, b: seq<T>, keep: T -> bool)
    ensures Filter(a + b, keep) == Filter(a, keep) + Filter(b, keep)
  {
    if |a| == 0 {
      assert a + b == b;
    } else {
      assert (a + b)[1..] == a[1..] + b;
      FilterAppend(a[1..], b, keep);
    }
  }

  /** Two predicates that agree everywhere filter alike. */
  lemma {:induction false} FilterCongruent<T>(s: seq<T>, f: T -> bool, g: T -> bool)
    requires forall x :: f(x) == g(x)
    ensures Filter(s, f) == Filter(s, g)
  {
    if |s| > 0 {
      FilterCongruent(s[1..], f, g);
    }
  }

  /** The positions of `s` whose element `keep` accepts. */
  function KeptIndices<T>(s: seq<T>, keep: T -> bool): set<nat>
  {
    set i: nat | i < |s| && keep(s[i])
  }

  /** Appending one element adds its position to the kept positions when it is kept. */
  lemma KeptIndicesSnoc<T>(init: seq<T>, last: T, keep: T -> bool)
    ensures KeptIndices(init + [last], keep)
         == KeptIndices(init, keep) + (if keep(last) then {|init|} else {})
  {
    var s := init + [last];
    forall i: nat | i in KeptIndices(s, keep)
      ensures i in KeptIndices(init, keep) + (if keep(last) then {|init|} else {})
    {
      if i < |init| {
        assert s[i] == init[i];
      }
    }
    forall i: nat | i in KeptIndices(init, keep) + (if keep(last) then {|init|} else {})
      ensures i in KeptIndices(s, keep)
    {
      if i < |init| {
        assert s[i] == init[i];
      }
    }
  }

  /** The length of a filtered array counts the accepted positions. */
  lemma {:induction false} FilterCount<T>(s: seq<T>, keep: T -> bool)
    ensures |Filter(s, keep)| == |KeptIndices(s, keep)|
    decreases |s|
  {
    if |s| == 0 {
      assert KeptIndices(s, keep) == {};
    } else {
      var init := s[..|s| - 1];
      var last := s[|s| - 1];
      assert s == init + [last];
      FilterAppend(init, [last], keep);
      FilterCount(init, keep);
      KeptIndicesSnoc(init, last, keep);
      var extra: set<nat> := if keep(last) then {|init|} else {};
      assert KeptIndices(init, keep) !! extra;
      assert |KeptIndices(s, keep)| == |KeptIndices(init, keep)| + |extra|;
      assert |Filter([last], keep)| == |extra|;
    }
  }

  /** A position argument of `slice`, resolved against the length. */
  function ClampIndex(i: int, len: nat): (r: nat)
    ensures r <= len
    ensures 0 <= i <= len ==> r == i
  {
    if i < 0 then (if len + i < 0 then 0 else len + i)
    else if i > len then len
    else i
  }

  /** `s.slice(start, end)`. */
  function Slice<T>(s: seq<T>, start: int, end: int): (r: seq<T>)
    ensures |r| <= |s|
    ensures forall x :: x in r ==> x in s
  {
    var a := ClampIndex(start, |s|);
    var b := ClampIndex(end, |s|);
    if b <= a then [] else s[a..b]
  }

  /** With a non-negative offset and limit, `slice(offset, offset + limit)`
      is the page of at most `limit` elements starting at `offset`. */
  lemma SliceWindow<T>(s: seq<T>, offset: int, limit: int)
    requires offset >= 0 && limit >= 0
    ensures |Slice(s, offset, offset + limit)| == Min(limit, Max(0, |s| - offset))
    ensures var page := Slice(s, offset, offset + limit);
      forall k :: 0 <= k < |page| ==> page[k] == s[offset + k]
  {
  }

  /** A negative start counts from the end: `slice(-n)` style pages take the
      last elements. */
  lemma SliceFromEnd<T>(s: seq<T>, n: int)
    requires 0 < n <= |s|
    ensures Slice(s, -n, |s|) == s[|s| - n..]
  {
  }
}
