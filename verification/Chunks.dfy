/** Steps that each stand for several smaller ones: how the two sequences line up. */
module Chunks {
  function Flat<T>(chunks: seq<seq<T>>): seq<T> {
    if chunks == [] then [] else Flat(chunks[..|chunks| - 1]) + chunks[|chunks| - 1]
  }

  /** Where chunk `m` begins. */
  function Place<T>(chunks: seq<seq<T>>, m: nat): nat
    requires m <= |chunks|
  {
    |Flat(chunks[..m])|
  }

  lemma PlaceMoves<T>(chunks: seq<seq<T>>, m: nat)
    requires m < |chunks|
    ensures Place(chunks, m + 1) == Place(chunks, m) + |chunks[m]|
  {
    assert chunks[..m + 1][..m] == chunks[..m];
  }

  lemma {:induction false} PlacesAscend<T>(chunks: seq<seq<T>>, m: nat, n: nat)
    requires m <= n <= |chunks|
    ensures Place(chunks, m) <= Place(chunks, n)
    decreases n
  {
    if m < n {
      PlacesAscend(chunks, m, n - 1);
      PlaceMoves(chunks, n - 1);
    }
  }

  /** Element `z` of chunk `m`, in the flat sequence. */
  lemma {:induction false} ElementAt<T>(chunks: seq<seq<T>>, m: nat, z: nat)
    requires m < |chunks| && z < |chunks[m]|
    ensures Place(chunks, m) + z < |Flat(chunks)| && Flat(chunks)[Place(chunks, m) + z] == chunks[m][z]
    decreases |chunks|
  {
    var front := chunks[..|chunks| - 1];
    if m < |front| {
      ElementAt(front, m, z);
      assert front[..m] == chunks[..m];
    }
  }

  /** The chunk in which place `p` lies. */
  lemma {:induction false} Locate<T>(chunks: seq<seq<T>>, p: nat) returns (m: nat)
    requires p < |Flat(chunks)|
    ensures m < |chunks| && Place(chunks, m) <= p < Place(chunks, m) + |chunks[m]|
    ensures Flat(chunks)[p] == chunks[m][p - Place(chunks, m)]
    decreases |chunks|
  {
    var front := chunks[..|chunks| - 1];
    if p < |Flat(front)| {
      m := Locate(front, p);
      assert front[..m] == chunks[..m];
    } else {
      m := |front|;
    }
  }

  /** The elements of the chunks between those of `p` and `q` lie between the two. */
  lemma LiesBetween<T>(chunks: seq<seq<T>>, a: nat, b: nat, p: nat, q: nat, m: nat, z: nat)
    requires a < m < b < |chunks| && z < |chunks[m]|
    requires p < Place(chunks, a) + |chunks[a]| && Place(chunks, b) <= q < |Flat(chunks)|
    ensures p < Place(chunks, m) + z < q && Flat(chunks)[Place(chunks, m) + z] == chunks[m][z]
  {
    PlaceMoves(chunks, a);
    PlacesAscend(chunks, a + 1, m);
    PlaceMoves(chunks, m);
    PlacesAscend(chunks, m + 1, b);
    ElementAt(chunks, m, z);
  }

  /** The fine states are the coarse ones at the beginnings of the chunks, and at the end. */
  ghost predicate PassesThrough<S, T>(fine: seq<S>, chunks: seq<seq<T>>, coarse: seq<S>) {
    && |coarse| == |chunks| + 1 && |fine| == |Flat(chunks)| + 1
    && forall m: nat | m <= |chunks| :: Place(chunks, m) < |fine| && fine[Place(chunks, m)] == coarse[m]
  }

  lemma PassesToTheEnd<S, T>(fine: seq<S>, chunks: seq<seq<T>>, coarse: seq<S>)
    requires PassesThrough(fine, chunks, coarse)
    ensures fine[|Flat(chunks)|] == coarse[|chunks|]
  {
    assert chunks[..|chunks|] == chunks && Place(chunks, |chunks|) == |Flat(chunks)|;
  }

  lemma PassesOn<S, T>(fine: seq<S>, chunks: seq<seq<T>>, coarse: seq<S>, grown: seq<S>, chunk: seq<T>)
    requires PassesThrough(fine, chunks, coarse) && fine <= grown && |grown| == |fine| + |chunk|
    ensures PassesThrough(grown, chunks + [chunk], coarse + [grown[|grown| - 1]])
  {
    var more, next := chunks + [chunk], coarse + [grown[|grown| - 1]];
    assert more[..|chunks|] == chunks;
    forall m: nat | m <= |more| ensures Place(more, m) < |grown| && grown[Place(more, m)] == next[m] {
      if m <= |chunks| {
        assert more[..m] == chunks[..m] && Place(chunks, m) < |fine|;
        assert grown[Place(chunks, m)] == fine[Place(chunks, m)] == coarse[m];
      } else {
        assert more[..m] == more;
        assert |Flat(more)| == |Flat(chunks)| + |chunk|;
      }
    }
  }

  lemma PassesAtFirst<S, T>(chunks: seq<seq<T>>, coarse: seq<S>)
    requires coarse != []
    ensures Flat(chunks[..0]) == [] && PassesThrough([coarse[0]], chunks[..0], coarse[..1])
  {
  }

  lemma PassesFurther<S, T>(fine: seq<S>, chunks: seq<seq<T>>, coarse: seq<S>, n: nat, grown: seq<S>)
    requires n < |chunks| && |coarse| == |chunks| + 1 && PassesThrough(fine, chunks[..n], coarse[..n + 1])
    requires fine <= grown && |grown| == |fine| + |chunks[n]| && grown[|grown| - 1] == coarse[n + 1]
    ensures Flat(chunks[..n + 1]) == Flat(chunks[..n]) + chunks[n]
    ensures PassesThrough(grown, chunks[..n + 1], coarse[..n + 2])
  {
    PassesOn(fine, chunks[..n], coarse[..n + 1], grown, chunks[n]);
    assert chunks[..n + 1] == chunks[..n] + [chunks[n]] && chunks[..n + 1][..n] == chunks[..n];
    assert coarse[..n + 2] == coarse[..n + 1] + [coarse[n + 1]];
  }
}
