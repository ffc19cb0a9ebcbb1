/**
 The incremental mean recurrence used by the weekly price aggregator, and the
 plain arithmetic mean it is compared against.
 */
module RunningMean {

  /** Sum of a sequence of reals, peeling the last element. */
  function Sum(xs: seq<real>): real
  {
    if |xs| == 0 then 0.0 else Sum(xs[..|xs| - 1]) + xs[|xs| - 1]
  }

  /** Arithmetic mean of a non-empty sequence. */
  function Mean(xs: seq<real>): real
    requires |xs| > 0
  {
    Sum(xs) / (|xs| as real)
  }

  /**
   The running-mean update: the new sample itself when `n` is 0, otherwise
   the previous mean weighted by (n - 1)/n plus the new sample weighted by
   1/n. It is a correct running mean only when
   `n` counts the new sample too; the aggregator passes the number of samples
   already folded.
   */
  function IterativeMean(x: real, n: nat, prevMean: real): (r: real)
    ensures n <= 1 ==> r == x
  {
    if n == 0 then x
    else
      var k := n as real;
      assert n == 1 ==> prevMean * (k - 1.0) == 0.0;
      prevMean * (k - 1.0) / k + x / k
  }

  lemma SumAppend(xs: seq<real>, x: real)
    ensures Sum(xs + [x]) == Sum(xs) + x
  {
    assert (xs + [x])[..|xs|] == xs;
  }

  /** With `n` equal to the new sample count and `prevMean` the mean of the earlier samples, the recurrence yields the mean of all of them. */
  lemma IterativeMeanExtends(ys: seq<real>, x: real)
    requires |ys| >= 1
    ensures IterativeMean(x, |ys| + 1, Mean(ys)) == Mean(ys + [x])
  {
    var k := |ys| as real;
    var s := Sum(ys);
    SumAppend(ys, x);
    assert Mean(ys) * k == s;
    calc {
      IterativeMean(x, |ys| + 1, Mean(ys));
      Mean(ys) * k / (k + 1.0) + x / (k + 1.0);
      s / (k + 1.0) + x / (k + 1.0);
      (s + x) / (k + 1.0);
      Mean(ys + [x]);
    }
  }

  /** A one-element mean is the element. */
  lemma MeanSingleton(x: real)
    ensures Mean([x]) == x
  {
    assert [x][..0] == [];
    assert Sum([x]) == x;
  }
}
