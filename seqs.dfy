/** The array operations the page relies on: `filter` and `find`. */
module Seqs {
  import opened Wrappers

  /** `s.filter(p)`: the elements of `s` that satisfy `p`, in their original order. */
  function Keep<T>(s: seq<T>, p: T -> bool): (r: seq<T>)
    ensures |r| <= |s|
    ensures forall x :: x in r ==> x in s && p(x)
  {
    if s == [] then []
    else Keep(s[..|s| - 1], p) + (if p(s[|s| - 1]) then [s[|s| - 1]] else [])
  }

  /** The positions in `s` of the elements that `Keep(s, p)` retains. */
  ghost function KeepIndices<T>(s: seq<T>, p: T -> bool): seq<nat>
  {
    if s == [] then []
    else KeepIndices(s[..|s| - 1], p) + (if p(s[|s| - 1]) then [|s| - 1] else [])
  }

  /** `Keep(s, p)` is the subsequence of `s` at strictly increasing positions, and a
      position is taken exactly when its element satisfies `p`. */
  lemma {:induction false} KeepIsStableSubsequence<T>(s: seq<T>, p: T -> bool)
    ensures |KeepIndices(s, p)| == |Keep(s, p)|
    ensures forall k :: 0 <= k < |KeepIndices(s, p)| ==>
              KeepIndices(s, p)[k] < |s| && Keep(s, p)[k] == s[KeepIndices(s, p)[k]]
    ensures forall k, l :: 0 <= k < l < |KeepIndices(s, p)| ==> KeepIndices(s, p)[k] < KeepIndices(s, p)[l]
    ensures forall i :: 0 <= i < |s| ==> (i in KeepIndices(s, p) <==> p(s[i]))
  {
    if s != [] {
      var init := s[..|s| - 1];
      KeepIsStableSubsequence(init, p);
      forall i | 0 <= i < |init| ensures init[i] == s[i] { }
    }
  }

  /** Every element of `s` that satisfies `p` is kept. */
  lemma {:induction false} KeepComplete<T>(s: seq<T>, p: T -> bool)
    ensures forall i :: 0 <= i < |s| && p(s[i]) ==> s[i] in Keep(s, p)
  {
    if s != [] {
      var init := s[..|s| - 1];
      KeepComplete(init, p);
      assert forall i :: 0 <= i < |init| ==> init[i] == s[i];
    }
  }

  /** Keeping everything of a list whose elements all pass gives the list back. */
  lemma {:induction false} KeepAll<T>(s: seq<T>, p: T -> bool)
    requires forall i :: 0 <= i < |s| ==> p(s[i])
    ensures Keep(s, p) == s
  {
    if s != [] {
      var init := s[..|s| - 1];
      assert forall i :: 0 <= i < |init| ==> init[i] == s[i];
      KeepAll(init, p);
      assert s == init + [s[|s| - 1]];
    }
  }

  /** `Keep` only looks at the predicate on the elements of the list. */
  lemma {:induction false} KeepCongruent<T>(s: seq<T>, p: T -> bool, q: T -> bool)
    requires forall i :: 0 <= i < |s| ==> p(s[i]) == q(s[i])
    ensures Keep(s, p) == Keep(s, q)
  {
    if s != [] {
      var init := s[..|s| - 1];
      assert forall i :: 0 <= i < |init| ==> init[i] == s[i];
      KeepCongruent(init, p, q);
    }
  }

  /** Filtering by `p` and then by `q` is filtering once by their conjunction `pq`. */
  lemma {:induction false} KeepKeep<T>(s: seq<T>, p: T -> bool, q: T -> bool, pq: T -> bool)
    requires forall i :: 0 <= i < |s| ==> pq(s[i]) == (p(s[i]) && q(s[i]))
    ensures Keep(Keep(s, p), q) == Keep(s, pq)
  {
    if s != [] {
      var init, last := s[..|s| - 1], s[|s| - 1];
      KeepKeep(init, p, q, pq);
      var kp := Keep(init, p);
      if p(last) {
        assert Keep(s, p) == kp + [last];
        assert (kp + [last])[..|kp|] == kp;
      } else {
        assert Keep(s, p) == kp;
      }
    }
  }

  /** Two filters can be applied in either order. */
  lemma KeepCommutes<T>(s: seq<T>, p: T -> bool, q: T -> bool)
    ensures Keep(Keep(s, p), q) == Keep(Keep(s, q), p)
  {
    var pq := x => p(x) && q(x);
    KeepKeep(s, p, q, pq);
    KeepKeep(s, q, p, pq);
  }

  /** `i` is the first position in `s` whose element satisfies `p`. */
  ghost predicate FirstMatch<T>(s: seq<T>, p: T -> bool, i: int)
  {
    0 <= i < |s| && p(s[i]) && forall j :: 0 <= j < i ==> !p(s[j])
  }

  /** `s.findIndex(p)`, with `None` in place of -1. */
  function FindIndex<T>(s: seq<T>, p: T -> bool): (r: Option<nat>)
    ensures r.Some? ==> FirstMatch(s, p, r.value)
    ensures r.None? ==> forall j :: 0 <= j < |s| ==> !p(s[j])
  {
    if s == [] then None
    else if p(s[0]) then Some(0)
    else match FindIndex(s[1..], p)
      case None => None
      case Some(k) => Some(k + 1)
  }

  /** `s.find(p)`: the first element that satisfies `p`, or `None` (JavaScript's `undefined`). */
  function Find<T>(s: seq<T>, p: T -> bool): (r: Option<T>)
    ensures r.None? <==> forall j :: 0 <= j < |s| ==> !p(s[j])
    ensures r.Some? ==> exists i :: FirstMatch(s, p, i) && s[i] == r.value
  {
    match FindIndex(s, p)
    case None => None
    case Some(i) => Some(s[i])
  }
}
