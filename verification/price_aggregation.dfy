/**
 The weekly price aggregator: folds one coin's chronologically ordered price
 history into a table from week-start day to that week's running mean, exactly
 as the loop of `populate_weekly_averages_for_coin` does it.

 The loop keeps three variables besides the table: the number `n` of samples
 already folded in the current week, the running mean, and the previous week
 start (initially 0). Because `n` is handed to the mean recurrence before it is
 incremented, the second sample of a week overwrites the first: a week whose
 run holds samples x1..xk settles to x1 when k = 1 and to mean(x2..xk) when
 k >= 2 (see `Settled`).
 */
module PriceAggregation {
  import opened Calendar
  import opened RunningMean

  /** One point of a fetched price history: when it was observed and its price. */
  datatype Sample = Sample(when: DateTime, price: real)

  /** Week-start day -> price; sparse, holding only weeks that had samples. */
  type PriceTable = map<int, real>

  /** The loop's state: the table so far, `n`, the running mean and the previous week start. */
  datatype AggState = AggState(table: PriceTable, n: nat, mean: real, prev: int)

  const Initial: AggState := AggState(map[], 0, 0.0, 0)

  /** One iteration of the aggregation loop. */
  function Step(st: AggState, s: Sample): AggState
  {
    var w := StartOfWeek(s.when);
    var n := if w != st.prev then 0 else st.n;
    var mean := if w != st.prev then 0.0 else st.mean;
    var m := IterativeMean(s.price, n, mean);
    AggState(st.table[w := m], n + 1, m, w)
  }

  /** The loop's state after folding all of `samples`, in order. */
  function Fold(samples: seq<Sample>): AggState
  {
    if |samples| == 0 then Initial
    else Step(Fold(samples[..|samples| - 1]), samples[|samples| - 1])
  }

  /** The table `populate_weekly_averages_for_coin` stores for one coin. */
  function AggregateWeekly(samples: seq<Sample>): PriceTable
  {
    Fold(samples).table
  }

  /** `get_token_weekly_price` once the table exists: a week without an entry is priced 0. */
  function LookupPrice(table: PriceTable, week: int): (p: real)
    ensures week !in table ==> p == 0.0
    ensures week in table ==> p == table[week]
  {
    if week in table then table[week] else 0.0
  }

  /** The price column of a run of samples. */
  function Prices(samples: seq<Sample>): (ps: seq<real>)
    ensures |ps| == |samples|
    ensures forall i :: 0 <= i < |samples| ==> ps[i] == samples[i].price
  {
    seq(|samples|, i requires 0 <= i < |samples| => samples[i].price)
  }

  /** The value a week settles to after a run of k >= 1 samples: the first when k = 1, else the mean of all but the first. */
  function Settled(xs: seq<real>): real
    requires |xs| >= 1
  {
    if |xs| == 1 then xs[0] else Mean(xs[1..])
  }

  /** Every sample of `samples` falls in the week starting on day `w`. */
  predicate InWeek(samples: seq<Sample>, w: int)
  {
    forall i :: 0 <= i < |samples| ==> StartOfWeek(samples[i].when) == w
  }

  /** No sample of `samples` falls in the week starting on day `w`. */
  predicate AvoidsWeek(samples: seq<Sample>, w: int)
  {
    forall i :: 0 <= i < |samples| ==> StartOfWeek(samples[i].when) != w
  }

  /** After a non-empty history the loop's "previous week" is the last sample's week. */
  lemma FoldPrev(samples: seq<Sample>)
    requires |samples| > 0
    ensures Fold(samples).prev == StartOfWeek(samples[|samples| - 1].when)
  {
  }

  /**
   A run of samples in week `w`, entered from a different week (or from the
   start), leaves `n` equal to the run length and the settled value of the run
   both as the running mean and as the table entry for `w`; every other entry
   is as before the run.
   */
  lemma {:induction false} FoldRun(pre: seq<Sample>, run: seq<Sample>, w: int)
    requires |run| >= 1 && InWeek(run, w)
    requires |pre| == 0 || StartOfWeek(pre[|pre| - 1].when) != w
    ensures Fold(pre + run).prev == w
    ensures Fold(pre + run).n == |run|
    ensures Fold(pre + run).mean == Settled(Prices(run))
    ensures Fold(pre + run).table == Fold(pre).table[w := Settled(Prices(run))]
  {
    var k := |run| - 1;
    var x := run[k];
    assert (pre + run)[..|pre + run| - 1] == pre + run[..k];
    assert (pre + run)[|pre + run| - 1] == x;
    if k == 0 {
      assert pre + run[..0] == pre;
      if |pre| == 0 {
        StartOfWeekNeverZero(x.when);
      } else {
        FoldPrev(pre);
      }
    } else {
      FoldRun(pre, run[..k], w);
      var ps := Prices(run);
      assert Prices(run[..k]) == ps[..k];
      if k == 1 {
        assert ps[1..] == [x.price];
        MeanSingleton(x.price);
      } else {
        assert ps[..k][1..] == ps[1..k];
        IterativeMeanExtends(ps[1..k], x.price);
        assert ps[1..k] + [x.price] == ps[1..];
      }
    }
  }

  /** Samples outside week `w` leave its entry (present or absent) untouched. */
  lemma {:induction false} FoldAvoids(xs: seq<Sample>, post: seq<Sample>, w: int)
    requires AvoidsWeek(post, w)
    ensures w in Fold(xs + post).table <==> w in Fold(xs).table
    ensures w in Fold(xs).table ==> Fold(xs + post).table[w] == Fold(xs).table[w]
  {
    if |post| > 0 {
      var k := |post| - 1;
      assert (xs + post)[..|xs + post| - 1] == xs + post[..k];
      assert (xs + post)[|xs + post| - 1] == post[k];
      FoldAvoids(xs, post[..k], w);
    } else {
      assert xs + post == xs;
    }
  }

  /** The table's keys are exactly the week starts of the samples; in particular an empty history gives an empty table. */
  lemma {:induction false} AggregateKeys(samples: seq<Sample>)
    ensures forall w :: w in AggregateWeekly(samples) <==>
      exists i :: 0 <= i < |samples| && StartOfWeek(samples[i].when) == w
    ensures |samples| == 0 ==> AggregateWeekly(samples) == map[]
  {
    if |samples| > 0 {
      var k := |samples| - 1;
      var init := samples[..k];
      AggregateKeys(init);
      var wk := StartOfWeek(samples[k].when);
      assert AggregateWeekly(samples).Keys == AggregateWeekly(init).Keys + {wk};
      forall w
        ensures w in AggregateWeekly(samples) <==>
          exists i :: 0 <= i < |samples| && StartOfWeek(samples[i].when) == w
      {
        if w in AggregateWeekly(init) {
          var i :| 0 <= i < k && StartOfWeek(init[i].when) == w;
          assert samples[i] == init[i];
        }
        if exists i :: 0 <= i < |samples| && StartOfWeek(samples[i].when) == w {
          var i :| 0 <= i < |samples| && StartOfWeek(samples[i].when) == w;
          if i < k {
            assert init[i] == samples[i];
          }
        }
      }
    }
  }

  /**
   A week's stored price is the settled value of its LAST run: write the history
   as pre + run + post, where run is a maximal block of samples in week w and
   post never returns to w. Earlier runs of the same week are discarded.
   */
  lemma LastRunSettles(pre: seq<Sample>, run: seq<Sample>, post: seq<Sample>, w: int)
    requires |run| >= 1 && InWeek(run, w)
    requires |pre| == 0 || StartOfWeek(pre[|pre| - 1].when) != w
    requires AvoidsWeek(post, w)
    ensures w in AggregateWeekly(pre + run + post)
    ensures AggregateWeekly(pre + run + post)[w] == Settled(Prices(run))
    ensures LookupPrice(AggregateWeekly(pre + run + post), w) == Settled(Prices(run))
  {
    FoldRun(pre, run, w);
    FoldAvoids(pre + run, post, w);
  }

  /**
   `samples[i..j]` is the last run of week `w`: a non-empty block of samples in
   `w`, not preceded by another sample of `w`, after which the history never
   returns to `w`.
   */
  predicate LastRun(samples: seq<Sample>, w: int, i: int, j: int)
  {
    0 <= i < j <= |samples| && InWeek(samples[i..j], w)
    && (i == 0 || StartOfWeek(samples[i - 1].when) != w)
    && AvoidsWeek(samples[j..], w)
  }

  /** Walking back from `samples[i..j]` in week `w` to the start of its block. */
  lemma {:induction false} RunStart(samples: seq<Sample>, w: int, i: nat, j: nat) returns (s: nat)
    requires i < j <= |samples| && InWeek(samples[i..j], w)
    ensures s <= i && InWeek(samples[s..j], w)
    ensures s == 0 || StartOfWeek(samples[s - 1].when) != w
  {
    if i == 0 || StartOfWeek(samples[i - 1].when) != w {
      s := i;
    } else {
      assert samples[i - 1..j] == [samples[i - 1]] + samples[i..j];
      s := RunStart(samples, w, i - 1, j);
    }
  }

  /** Any week that some sample falls in has a last run. */
  lemma {:induction false} FindLastRun(samples: seq<Sample>, w: int, x: nat) returns (i: nat, j: nat)
    requires x < |samples| && StartOfWeek(samples[x].when) == w
    ensures LastRun(samples, w, i, j)
  {
    var k := |samples| - 1;
    if StartOfWeek(samples[k].when) == w {
      assert InWeek(samples[k..k + 1], w);
      i := RunStart(samples, w, k, k + 1);
      j := k + 1;
    } else {
      var init := samples[..k];
      assert init[x] == samples[x];
      i, j := FindLastRun(init, w, x);
      assert samples[i..j] == init[i..j];
      assert i > 0 ==> samples[i - 1] == init[i - 1];
      assert samples[j..] == init[j..] + [samples[k]];
    }
  }

  /**
   The aggregated table in full: a week has an entry iff some sample falls in
   it, and the entry is the settled value of that week's last run.
   */
  lemma AggregateWeeklySpec(samples: seq<Sample>, w: int)
    ensures w in AggregateWeekly(samples) <==>
      exists x :: 0 <= x < |samples| && StartOfWeek(samples[x].when) == w
    ensures w in AggregateWeekly(samples) ==>
      exists i, j :: LastRun(samples, w, i, j) && AggregateWeekly(samples)[w] == Settled(Prices(samples[i..j]))
  {
    AggregateKeys(samples);
    if w in AggregateWeekly(samples) {
      var x :| 0 <= x < |samples| && StartOfWeek(samples[x].when) == w;
      var i, j := FindLastRun(samples, w, x);
      assert samples == samples[..i] + samples[i..j] + samples[j..];
      LastRunSettles(samples[..i], samples[i..j], samples[j..], w);
    }
  }

  /** A week in which no sample falls is priced 0 by the lookup. */
  lemma UnobservedWeekIsZero(samples: seq<Sample>, w: int)
    requires AvoidsWeek(samples, w)
    ensures LookupPrice(AggregateWeekly(samples), w) == 0.0
  {
    AggregateKeys(samples);
  }

  /** Two samples of 1.0 and 3.0 in one week are stored as 3.0, not their mean 2.0. */
  lemma RunningMeanDropsFirstSample(t: DateTime)
    ensures AggregateWeekly([Sample(t, 1.0), Sample(t, 3.0)])[StartOfWeek(t)] == 3.0
    ensures Mean([1.0, 3.0]) == 2.0
  {
    var run := [Sample(t, 1.0), Sample(t, 3.0)];
    LastRunSettles([], run, [], StartOfWeek(t));
    assert [] + run + [] == run;
    assert Prices(run)[1..] == [3.0];
    MeanSingleton(3.0);
    assert [1.0, 3.0][..1] == [1.0];
    assert [1.0][..0] == [];
  }
}
