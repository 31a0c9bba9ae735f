/**
 * The accumulator behind the sample statistics report: it keeps the minimum, the
 * maximum and the sum of the values fed to it, and `Done` turns the sum into the
 * integer average. The values themselves are kept only as a ghost history, against
 * which every field is specified.
 */
module Statistics {
  import opened Common

  /** The sum of a sequence of values. */
  function SumOf(vs: seq<u32>): nat
  {
    if |vs| == 0 then 0 else SumOf(vs[..|vs| - 1]) + vs[|vs| - 1]
  }

  /** The running minimum, starting from the largest `u32`. */
  function MinOf(vs: seq<u32>): u32
  {
    if |vs| == 0 then U32_MAX
    else
      var m := MinOf(vs[..|vs| - 1]);
      if vs[|vs| - 1] < m then vs[|vs| - 1] else m
  }

  /** The running maximum, starting from 0. */
  function MaxOf(vs: seq<u32>): u32
  {
    if |vs| == 0 then 0
    else
      var m := MaxOf(vs[..|vs| - 1]);
      if vs[|vs| - 1] > m then vs[|vs| - 1] else m
  }

  /** The running minimum is a lower bound of the values, and one of them when there is any. */
  lemma {:induction false} MinOfIsLeast(vs: seq<u32>)
    ensures forall k :: 0 <= k < |vs| ==> MinOf(vs) <= vs[k]
    ensures |vs| > 0 ==> MinOf(vs) in vs
  {
    if |vs| > 0 {
      var init := vs[..|vs| - 1];
      MinOfIsLeast(init);
      forall k | 0 <= k < |vs| - 1
        ensures MinOf(vs) <= vs[k]
      {
        assert vs[k] == init[k];
      }
      assert MinOf(init) in init ==> MinOf(init) in vs;
    }
  }

  /** The running maximum is an upper bound of the values, and one of them when there is any. */
  lemma {:induction false} MaxOfIsGreatest(vs: seq<u32>)
    ensures forall k :: 0 <= k < |vs| ==> vs[k] <= MaxOf(vs)
    ensures |vs| > 0 ==> MaxOf(vs) in vs
  {
    if |vs| > 0 {
      var init := vs[..|vs| - 1];
      MaxOfIsGreatest(init);
      forall k | 0 <= k < |vs| - 1
        ensures vs[k] <= MaxOf(vs)
      {
        assert vs[k] == init[k];
      }
      assert MaxOf(init) in init ==> MaxOf(init) in vs;
    }
  }

  /** A lower bound of every value bounds the sum by |vs| copies of itself. */
  lemma {:induction false} SumAtLeast(vs: seq<u32>, lo: int)
    requires forall k :: 0 <= k < |vs| ==> lo <= vs[k]
    ensures |vs| * lo <= SumOf(vs)
  {
    if |vs| > 0 {
      var init := vs[..|vs| - 1];
      SumAtLeast(init, lo);
      assert |vs| * lo == |init| * lo + lo;
    }
  }

  /** An upper bound of every value bounds the sum by |vs| copies of itself. */
  lemma {:induction false} SumAtMost(vs: seq<u32>, hi: int)
    requires forall k :: 0 <= k < |vs| ==> vs[k] <= hi
    ensures SumOf(vs) <= |vs| * hi
  {
    if |vs| > 0 {
      var init := vs[..|vs| - 1];
      SumAtMost(init, hi);
      assert |vs| * hi == |init| * hi + hi;
    }
  }

  lemma MulMono(n: nat, a: int, b: int)
    ensures a <= b ==> n * a <= n * b
  {
  }

  /** Integer division of a sum bounded by n * lo and n * hi lies between lo and hi. */
  lemma DivBetween(s: nat, n: nat, lo: nat, hi: nat)
    requires n > 0 && n * lo <= s <= n * hi
    ensures lo <= s / n <= hi
  {
    var q, r := s / n, s % n;
    assert s == n * q + r && 0 <= r < n;
    assert n * (q + 1) == n * q + n;
    assert n * (hi + 1) == n * hi + n;
    MulMono(n, q + 1, lo);
    MulMono(n, hi + 1, q);
  }

  /** The truncated average of a nonempty sequence lies between its minimum and its maximum. */
  lemma AverageBetween(vs: seq<u32>)
    requires |vs| > 0
    ensures MinOf(vs) <= SumOf(vs) / |vs| <= MaxOf(vs)
  {
    MinOfIsLeast(vs);
    MaxOfIsGreatest(vs);
    SumAtLeast(vs, MinOf(vs));
    SumAtMost(vs, MaxOf(vs));
    DivBetween(SumOf(vs), |vs|, MinOf(vs), MaxOf(vs));
  }

  class Stats {
    var min: u32
    var max: u32
    /** Rust `usize`; taken as unbounded. */
    var sum: nat
    var avg: nat
    var numValues: u32
    /** Every value fed to `Update`, in order. */
    ghost var values: seq<u32>

    /** The fields summarise the history of values. */
    ghost predicate Valid()
      reads this
    {
      && min == MinOf(values)
      && max == MaxOf(values)
      && sum == SumOf(values)
      && numValues == |values|
    }

    /** A fresh accumulator: minimum at the largest `u32`, everything else 0. */
    constructor ()
      ensures Valid() && values == []
      ensures min == U32_MAX && max == 0 && sum == 0 && avg == 0 && numValues == 0
    {
      min, max, sum, avg, numValues := U32_MAX, 0, 0, 0, 0;
      values := [];
    }

    /** Feed one value; the count is a `u32`, so the caller may feed at most `u32::MAX` values. */
    method Update(val: u32)
      requires Valid() && numValues < U32_MAX
      modifies this
      ensures Valid() && values == old(values) + [val] && avg == old(avg)
      ensures min <= val <= max
    {
      values := values + [val];
      assert values[..|values| - 1] == old(values);
      min := if min < val then min else val;
      max := if max > val then max else val;
      sum := sum + val;
      numValues := numValues + 1;
    }

    /** Compute the truncated average; dividing by a zero count panics, so at least one value is needed. */
    method Done()
      requires Valid() && numValues > 0
      modifies this
      ensures Valid() && values == old(values)
      ensures avg == SumOf(values) / |values|
      ensures min <= avg <= max
    {
      avg := sum / numValues;
      AverageBetween(values);
    }
  }
}
