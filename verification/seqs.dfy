/** Order-preserving filtering of sequences, shared by every "the layers of
    this kind, in map order" selection of the model. */
module Seqs {

  /** The indices `i >= from` of the elements of `s` that satisfy `p`: in
      range, strictly increasing, and not missing any. */
  function MatchingIndices<T>(p: T -> bool, s: seq<T>, from: nat): (r: seq<int>)
    requires from <= |s|
    ensures forall k :: 0 <= k < |r| ==> from <= r[k] < |s| && p(s[r[k]])
    ensures forall k, l :: 0 <= k < l < |r| ==> r[k] < r[l]
    ensures forall i :: from <= i < |s| && p(s[i]) ==> i in r
    decreases |s| - from
  {
    if from == |s| then []
    else if p(s[from]) then [from] + MatchingIndices(p, s, from + 1)
    else MatchingIndices(p, s, from + 1)
  }

  /** The elements of `s` that satisfy `p`, in their order in `s`: exactly
      the elements at `MatchingIndices(p, s, 0)`, each once. */
  function Filter<T>(p: T -> bool, s: seq<T>): (r: seq<T>)
    ensures |r| == |MatchingIndices(p, s, 0)|
    ensures forall k :: 0 <= k < |r| ==> r[k] == s[MatchingIndices(p, s, 0)[k]]
    ensures forall i :: 0 <= i < |r| ==> r[i] in s && p(r[i])
    ensures forall i :: 0 <= i < |s| && p(s[i]) ==> s[i] in r
  {
    var indices := MatchingIndices(p, s, 0);
    var r := seq(|indices|, k requires 0 <= k < |indices| => s[indices[k]]);
    assert forall i :: 0 <= i < |s| && p(s[i]) ==> s[i] in r by {
      forall i | 0 <= i < |s| && p(s[i])
        ensures s[i] in r
      {
        var k :| 0 <= k < |indices| && indices[k] == i;
        assert r[k] == s[i];
      }
    }
    r
  }
}
