/** Order-preserving selection of elements from a sequence. */
module Sequences {

  /** `xs` can be obtained from `ys` by deleting elements, keeping the order of the rest. */
  predicate IsSubsequence<T(==)>(xs: seq<T>, ys: seq<T>)
    decreases |ys|
  {
    if xs == [] then true
    else if ys == [] then false
    else if xs[0] == ys[0] then IsSubsequence(xs[1..], ys[1..])
    else IsSubsequence(xs, ys[1..])
  }

  lemma {:induction false} SubsequenceDropFirst<T>(xs: seq<T>, ys: seq<T>)
    requires xs != [] && IsSubsequence(xs, ys)
    ensures IsSubsequence(xs[1..], ys)
    decreases |ys|, 0
  {
    if xs[0] == ys[0] {
      SubsequenceCons(xs[1..], ys[0], ys[1..]);
      assert [ys[0]] + ys[1..] == ys;
    } else {
      SubsequenceDropFirst(xs, ys[1..]);
      SubsequenceCons(xs[1..], ys[0], ys[1..]);
      assert [ys[0]] + ys[1..] == ys;
    }
  }

  /** Putting one more element in front of the larger sequence keeps a subsequence a subsequence. */
  lemma {:induction false} SubsequenceCons<T>(xs: seq<T>, y: T, ys: seq<T>)
    requires IsSubsequence(xs, ys)
    ensures IsSubsequence(xs, [y] + ys)
    decreases |ys|, 1
  {
    assert ([y] + ys)[1..] == ys;
    if xs != [] && xs[0] == y {
      SubsequenceDropFirst(xs, ys);
    }
  }

  lemma {:induction false} SubsequenceRefl<T>(ys: seq<T>)
    ensures IsSubsequence(ys, ys)
    decreases |ys|
  {
    if ys != [] {
      SubsequenceRefl(ys[1..]);
    }
  }

  /** Deleting the element at one position leaves a subsequence. */
  lemma {:induction false} SubsequenceDeleteAt<T>(ys: seq<T>, i: nat)
    requires i < |ys|
    ensures IsSubsequence(ys[..i] + ys[i + 1..], ys)
    decreases i
  {
    if i == 0 {
      assert ys[..0] + ys[1..] == ys[1..];
      SubsequenceRefl(ys[1..]);
      SubsequenceCons(ys[1..], ys[0], ys[1..]);
      assert [ys[0]] + ys[1..] == ys;
    } else {
      var rest := ys[1..];
      SubsequenceDeleteAt(rest, i - 1);
      var xs := ys[..i] + ys[i + 1..];
      assert xs[0] == ys[0];
      assert xs[1..] == rest[..i - 1] + rest[i..];
    }
  }
}
