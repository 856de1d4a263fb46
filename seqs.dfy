/** Order-preserving subsequences, witnessed by the strictly increasing
    positions at which the kept elements sit in the original. */
module Seqs {

  /** `idx` places every element of `a` at a position of `b`, in increasing order. */
  ghost predicate Embeds<T>(idx: seq<int>, a: seq<T>, b: seq<T>)
  {
    && |idx| == |a|
    && (forall k :: 0 <= k < |idx| ==> 0 <= idx[k] < |b| && a[k] == b[idx[k]])
    && (forall k, l :: 0 <= k < l < |idx| ==> idx[k] < idx[l])
  }

  ghost predicate IsSubsequence<T>(a: seq<T>, b: seq<T>)
  {
    exists idx :: Embeds(idx, a, b)
  }

  /** Extending the original at the end keeps an embedding; keeping the new
      last element extends it. */
  lemma EmbedsExtend<T>(idx: seq<int>, a: seq<T>, b: seq<T>, x: T, keep: bool)
    requires Embeds(idx, a, b)
    ensures Embeds(idx + (if keep then [|b|] else []), a + (if keep then [x] else []), b + [x])
  {
  }
}
