/** `torch.cat` along the leading axis, on sequences of slices. */
module Concatenation {

  /** `torch.cat(parts)`: the leading-axis slices of every part, in order. */
  function Concat<S>(parts: seq<seq<S>>): (r: seq<S>)
    ensures |parts| == 1 ==> r == parts[0]
  {
    if parts == [] then [] else parts[0] + Concat(parts[1..])
  }

  /** Slice `t` of block `k` of `n` blocks of `m` lies within the `n * m` slices. */
  lemma BlockIndex(n: nat, m: nat, k: nat, t: nat)
    requires k < n && t < m
    ensures k * m + t < n * m
  {
    assert n * m == k * m + m + (n - k - 1) * m;
  }

  /** Concatenating parts of `m` slices each gives `|parts| * m` slices. */
  lemma {:induction false} ConcatLength<S>(parts: seq<seq<S>>, m: nat)
    requires forall k :: 0 <= k < |parts| ==> |parts[k]| == m
    ensures |Concat(parts)| == |parts| * m
  {
    if parts != [] {
      ConcatLength(parts[1..], m);
      assert |parts| * m == m + (|parts| - 1) * m;
    }
  }

  /** In such a concatenation, slice `t` of part `k` lands at `k * m + t`. */
  lemma {:induction false} ConcatAt<S>(parts: seq<seq<S>>, m: nat, k: nat, t: nat)
    requires forall k :: 0 <= k < |parts| ==> |parts[k]| == m
    requires k < |parts| && t < m
    ensures k * m + t < |Concat(parts)|
    ensures Concat(parts)[k * m + t] == parts[k][t]
  {
    ConcatLength(parts, m);
    BlockIndex(|parts|, m, k, t);
    if k == 0 {
      assert Concat(parts) == parts[0] + Concat(parts[1..]);
    } else {
      ConcatAt(parts[1..], m, k - 1, t);
      assert k * m + t == m + ((k - 1) * m + t);
      assert parts[1..][k - 1] == parts[k];
      assert Concat(parts) == parts[0] + Concat(parts[1..]);
    }
  }

  /** Every slice of a concatenation is a slice of one of its parts. */
  lemma {:induction false} ConcatSlices<S>(parts: seq<seq<S>>, i: nat)
    requires i < |Concat(parts)|
    ensures exists k, t :: 0 <= k < |parts| && 0 <= t < |parts[k]| && Concat(parts)[i] == parts[k][t]
  {
    if i < |parts[0]| {
      assert Concat(parts)[i] == parts[0][i];
    } else {
      ConcatSlices(parts[1..], i - |parts[0]|);
      var k, t :| 0 <= k < |parts[1..]| && 0 <= t < |parts[1..][k]| && Concat(parts[1..])[i - |parts[0]|] == parts[1..][k][t];
      assert Concat(parts)[i] == parts[k + 1][t];
    }
  }
}
