/**
 * The two array operations the feed pipeline is built from, `Array.prototype.map`
 * and `Array.prototype.filter`, over Dafny sequences, and the fact that a filter
 * yields an order-preserving subsequence of its input.
 */
module Sequences {

  /** `s.map(f)`. */
  function MapSeq<T, U>(s: seq<T>, f: T -> U): (r: seq<U>)
    ensures |r| == |s|
    ensures forall i :: 0 <= i < |s| ==> r[i] == f(s[i])
  {
    seq(|s|, i requires 0 <= i < |s| => f(s[i]))
  }

  /** `s.filter(keep)`: the elements that pass, in their original order. */
  function Filter<T>(s: seq<T>, keep: T -> bool): (r: seq<T>)
    ensures |r| <= |s|
  {
    if s == [] then []
    else
      var last := s[|s| - 1];
      assert s == s[..|s| - 1] + [last];
      Filter(s[..|s| - 1], keep) + (if keep(last) then [last] else [])
  }

  /** The positions of `s` whose element passes `keep`, in increasing order. */
  function KeptIndices<T>(s: seq<T>, keep: T -> bool): (ix: seq<nat>)
    ensures forall k :: 0 <= k < |ix| ==> ix[k] < |s|
  {
    if s == [] then []
    else KeptIndices(s[..|s| - 1], keep) + (if keep(s[|s| - 1]) then [|s| - 1] else [])
  }

  ghost predicate StrictlyIncreasing(ix: seq<nat>) {
    forall k, l :: 0 <= k < l < |ix| ==> ix[k] < ix[l]
  }

  /** The k-th survivor of a filter is the element at the k-th kept position. */
  lemma {:induction false} FilterFollowsKeptIndices<T>(s: seq<T>, keep: T -> bool)
    ensures |Filter(s, keep)| == |KeptIndices(s, keep)|
    ensures forall k :: 0 <= k < |KeptIndices(s, keep)| ==>
      Filter(s, keep)[k] == s[KeptIndices(s, keep)[k]]
  {
    if s != [] {
      var n := |s| - 1;
      var s' := s[..n];
      FilterFollowsKeptIndices(s', keep);
      var r', ix' := Filter(s', keep), KeptIndices(s', keep);
      var r, ix := Filter(s, keep), KeptIndices(s, keep);
      forall k | 0 <= k < |ix| ensures r[k] == s[ix[k]] {
        if k < |ix'| {
          assert r[k] == r'[k] && ix[k] == ix'[k] && s'[ix'[k]] == s[ix'[k]];
        }
      }
    }
  }

  /** Kept positions are listed in increasing order. */
  lemma {:induction false} KeptIndicesIncrease<T>(s: seq<T>, keep: T -> bool)
    ensures StrictlyIncreasing(KeptIndices(s, keep))
  {
    if s != [] {
      var n := |s| - 1;
      KeptIndicesIncrease(s[..n], keep);
      var ix', ix := KeptIndices(s[..n], keep), KeptIndices(s, keep);
      forall k, l | 0 <= k < l < |ix| ensures ix[k] < ix[l] {
        if l < |ix'| {
          assert ix[k] == ix'[k] && ix[l] == ix'[l];
        } else {
          assert ix[k] == ix'[k] < n;
        }
      }
    }
  }

  /** A position is kept exactly when its element passes. */
  lemma {:induction false} KeptIndicesExact<T>(s: seq<T>, keep: T -> bool)
    ensures forall i :: 0 <= i < |s| ==> (i in KeptIndices(s, keep) <==> keep(s[i]))
  {
    if s != [] {
      var n := |s| - 1;
      var s' := s[..n];
      KeptIndicesExact(s', keep);
      var ix', ix := KeptIndices(s', keep), KeptIndices(s, keep);
      forall i | 0 <= i < |s| ensures i in ix <==> keep(s[i]) {
        if i < n {
          assert s'[i] == s[i];
          assert i in ix <==> i in ix';
        } else {
          assert n !in ix';
        }
      }
    }
  }

  /**
   * A filter picks out exactly the positions whose element passes, and keeps
   * them in order: the k-th survivor is the element at the k-th kept position.
   */
  lemma {:induction false} FilterIsKeptSubsequence<T>(s: seq<T>, keep: T -> bool)
    ensures var r, ix := Filter(s, keep), KeptIndices(s, keep);
      && |r| == |ix|
      && StrictlyIncreasing(ix)
      && (forall k :: 0 <= k < |ix| ==> r[k] == s[ix[k]])
      && (forall i :: 0 <= i < |s| ==> (i in ix <==> keep(s[i])))
  {
    FilterFollowsKeptIndices(s, keep);
    KeptIndicesIncrease(s, keep);
    KeptIndicesExact(s, keep);
  }

  /** What survives a filter is what passes it, and everything that passes survives. */
  lemma {:induction false} FilterMembers<T>(s: seq<T>, keep: T -> bool)
    ensures forall k :: 0 <= k < |Filter(s, keep)| ==> Filter(s, keep)[k] in s && keep(Filter(s, keep)[k])
    ensures forall i :: 0 <= i < |s| && keep(s[i]) ==> s[i] in Filter(s, keep)
  {
    FilterIsKeptSubsequence(s, keep);
    var r, ix := Filter(s, keep), KeptIndices(s, keep);
    forall k | 0 <= k < |r| ensures r[k] in s && keep(r[k]) {
      assert ix[k] in ix;
    }
    forall i | 0 <= i < |s| && keep(s[i]) ensures s[i] in r {
      var k :| 0 <= k < |ix| && ix[k] == i;
      assert r[k] == s[i];
    }
  }

  /** A filter that every element passes returns its input unchanged. */
  lemma {:induction false} FilterKeepsAll<T>(s: seq<T>, keep: T -> bool)
    requires forall i :: 0 <= i < |s| ==> keep(s[i])
    ensures Filter(s, keep) == s
  {
    if s != [] {
      FilterKeepsAll(s[..|s| - 1], keep);
      assert s == s[..|s| - 1] + [s[|s| - 1]];
    }
  }
}
