/**
 What the portfolio derives from the two replay passes: the current valuation
 at spot prices, the year-end roll-up of the weekly valuation, and the
 profit/loss figures. A figure that divides by zero, looks up a fiscal year the
 books never opened, or iterates an empty table fails as the program does
 (ZeroDivisionError, KeyError, StopIteration); these are the `Failure` values.
 */
module Derivations {
  import opened Calendar
  import opened Symbols
  import opened OrderedMaps
  import opened Ledger
  import opened Accumulators

  /** Spot prices of balance symbols, through coin-id resolution. */
  function SpotQuote(mk: Market): string -> real
  {
    sym => mk.spot(Resolve(mk.catalog, sym))
  }

  /** The loop of `populate_valuation` over the coins `keys`. */
  function ValueHoldings(keys: seq<string>, b: Balances, spot: string -> real): (v: OMap<string, real>)
    ensures Valid(v)
  {
    if |keys| == 0 then Empty()
    else
      var k := keys[|keys| - 1];
      Put(ValueHoldings(keys[..|keys| - 1], b, spot), k, Worth(Get(b, k, 0.0), spot(k)))
  }

  /** `populate_valuation`: each held coin valued at its current spot price. */
  function PopulateValuation(b: Balances, mk: Market): (v: OMap<string, real>)
    ensures Valid(v)
  {
    ValueHoldings(b.keys, b, SpotQuote(mk))
  }

  /** Over distinct coins the valuation lists the coins in the same order, each at spot price times balance. */
  lemma {:induction false} ValueHoldingsSpec(keys: seq<string>, b: Balances, spot: string -> real)
    requires Distinct(keys)
    ensures ValueHoldings(keys, b, spot).keys == keys
    ensures forall i :: 0 <= i < |keys| ==>
      ValueHoldings(keys, b, spot).m[keys[i]] == Worth(Get(b, keys[i], 0.0), spot(keys[i]))
  {
    if |keys| > 0 {
      var init := keys[..|keys| - 1];
      var k := keys[|keys| - 1];
      assert Distinct(init);
      ValueHoldingsSpec(init, b, spot);
      assert k !in init;
      var v := ValueHoldings(init, b, spot);
      var w := Worth(Get(b, k, 0.0), spot(k));
      assert ValueHoldings(keys, b, spot) == Put(v, k, w);
      assert ValueHoldings(keys, b, spot).m == v.m[k := w];
      forall i | 0 <= i < |keys|
        ensures ValueHoldings(keys, b, spot).m[keys[i]] == Worth(Get(b, keys[i], 0.0), spot(keys[i]))
      {
        if i < |init| {
          assert keys[i] == init[i] && keys[i] != k;
          assert v.m[k := w][keys[i]] == v.m[init[i]];
        }
      }
    }
  }

  /** `populate_valuation` in full: exactly the balances' coins, in their order, each at spot price times balance. */
  lemma PopulateValuationSpec(b: Balances, mk: Market)
    requires Valid(b)
    ensures PopulateValuation(b, mk).keys == b.keys
    ensures forall k :: k in b.m ==> PopulateValuation(b, mk).m[k] == Worth(b.m[k], SpotQuote(mk)(k))
  {
    ValueHoldingsSpec(b.keys, b, SpotQuote(mk));
    forall k | k in b.m
      ensures PopulateValuation(b, mk).m[k] == Worth(b.m[k], SpotQuote(mk)(k))
    {
      var i :| 0 <= i < |b.keys| && b.keys[i] == k;
    }
  }

  /** `get_current_valuation_sum`: the summed valuation less everything donated. */
  function CurrentValuationSum(valuation: OMap<string, real>, acc: Accounts): real
  {
    SumValues(valuation) - FlowSum(acc, Donated)
  }

  /** Reference worth of the coins `keys`: Σ balance × spot price, in order. */
  function HoldingsWorth(keys: seq<string>, b: Balances, spot: string -> real): real
  {
    if |keys| == 0 then 0.0
    else
      var k := keys[|keys| - 1];
      HoldingsWorth(keys[..|keys| - 1], b, spot) + Worth(Get(b, k, 0.0), spot(k))
  }

  /** Over distinct coins the valuation sums to the reference worth. */
  lemma {:induction false} ValueHoldingsSum(keys: seq<string>, b: Balances, spot: string -> real)
    requires Distinct(keys)
    ensures SumValues(ValueHoldings(keys, b, spot)) == HoldingsWorth(keys, b, spot)
  {
    if |keys| > 0 {
      var init := keys[..|keys| - 1];
      var k := keys[|keys| - 1];
      assert Distinct(init);
      ValueHoldingsSum(init, b, spot);
      ValueHoldingsSpec(init, b, spot);
      var v := ValueHoldings(init, b, spot);
      assert k !in v.m by {
        assert k !in init;
      }
      var w := Worth(Get(b, k, 0.0), spot(k));
      assert Put(v, k, Get(v, k, 0.0) + w) == Put(v, k, w);
      AddToSum(v, k, w);
    }
  }

  /**
   `get_current_valuation_sum` after `populate_valuation`: the worth of the
   holdings at spot prices, less the total value of the donated rows.
   */
  lemma CurrentValuationSumSpec(rows: seq<Row>, mk: Market)
    ensures CurrentValuationSum(PopulateValuation(Holdings(rows), mk), EarnedAmounts(rows, mk))
      == HoldingsWorth(Holdings(rows).keys, Holdings(rows), SpotQuote(mk)) - FlowTotal(rows, mk, Donated)
  {
    ValueHoldingsSum(Holdings(rows).keys, Holdings(rows), SpotQuote(mk));
    SumsMatchReference(rows, mk, Donated);
  }

  /** The loop of `populate_yearly_valuation` over the weekly keys `keys`: each assignment overwrites its year. */
  function RollUp(keys: seq<DateTime>, wv: Valuations): (yv: OMap<int, real>)
    ensures Valid(yv)
  {
    if |keys| == 0 then Empty()
    else
      var t := keys[|keys| - 1];
      Put(RollUp(keys[..|keys| - 1], wv), t.year, Get(wv, t, 0.0))
  }

  /** `populate_yearly_valuation`. */
  function PopulateYearlyValuation(wv: Valuations): (yv: OMap<int, real>)
    ensures Valid(yv)
  {
    RollUp(wv.keys, wv)
  }

  /** The year of every key, in order. */
  function Years(keys: seq<DateTime>): seq<int>
  {
    seq(|keys|, i requires 0 <= i < |keys| => keys[i].year)
  }

  /** Some key falls in `year`. */
  predicate YearSeen(keys: seq<DateTime>, year: int)
  {
    exists i :: 0 <= i < |keys| && keys[i].year == year
  }

  /** The position of the last key that falls in `year`. */
  function LastOfYear(keys: seq<DateTime>, year: int): (i: int)
    requires YearSeen(keys, year)
    ensures 0 <= i < |keys| && keys[i].year == year
    ensures forall j :: i < j < |keys| ==> keys[j].year != year
  {
    var n := |keys| - 1;
    if keys[n].year == year then n
    else
      assert YearSeen(keys[..n], year) by {
        var i :| 0 <= i < |keys| && keys[i].year == year;
        assert keys[..n][i] == keys[i];
      }
      var i := LastOfYear(keys[..n], year);
      assert keys[..n][i] == keys[i];
      i
  }

  /** A year is rolled up iff some key falls in it, and it holds the valuation of its LAST key. */
  lemma {:induction false} RollUpKeepsLastOfYear(keys: seq<DateTime>, wv: Valuations, year: int)
    ensures year in RollUp(keys, wv).m <==> YearSeen(keys, year)
    ensures YearSeen(keys, year) ==> RollUp(keys, wv).m[year] == Get(wv, keys[LastOfYear(keys, year)], 0.0)
  {
    if |keys| > 0 {
      var n := |keys| - 1;
      var init := keys[..n];
      RollUpKeepsLastOfYear(init, wv, year);
      assert YearSeen(keys, year) <==> YearSeen(init, year) || keys[n].year == year by {
        assert forall i :: 0 <= i < n ==> init[i] == keys[i];
      }
      if keys[n].year != year && YearSeen(init, year) {
        assert init[LastOfYear(init, year)] == keys[LastOfYear(init, year)];
        assert LastOfYear(keys, year) == LastOfYear(init, year);
      }
    }
  }

  /** The year of the last weekly key rolls up to that key's valuation. */
  lemma LastKeyClosesItsYear(wv: Valuations)
    requires Valid(wv) && |wv.keys| > 0
    ensures var t := wv.keys[|wv.keys| - 1];
      t in wv.m && t.year in PopulateYearlyValuation(wv).m && PopulateYearlyValuation(wv).m[t.year] == wv.m[t]
  {
  }

  /** The roll-up lists the years in order of first appearance among the keys. */
  lemma {:induction false} RollUpYearOrder(keys: seq<DateTime>, wv: Valuations)
    ensures RollUp(keys, wv).keys == FirstSightings(Years(keys))
  {
    if |keys| > 0 {
      var n := |keys| - 1;
      RollUpYearOrder(keys[..n], wv);
      assert Years(keys)[..n] == Years(keys[..n]);
      FirstSightingsSpec(Years(keys[..n]));
    }
  }

  /**
   `populate_yearly_valuation` in full: the years of the weekly keys in order
   of first appearance, a year present iff some weekly key falls in it, holding
   the valuation of the last such key.
   */
  lemma PopulateYearlyValuationSpec(wv: Valuations, year: int)
    requires Valid(wv)
    ensures PopulateYearlyValuation(wv).keys == FirstSightings(Years(wv.keys))
    ensures year in PopulateYearlyValuation(wv).m <==> exists t :: t in wv.m && t.year == year
    ensures YearSeen(wv.keys, year) ==> PopulateYearlyValuation(wv).m[year] == wv.m[wv.keys[LastOfYear(wv.keys, year)]]
  {
    RollUpYearOrder(wv.keys, wv);
    RollUpKeepsLastOfYear(wv.keys, wv, year);
    if exists t :: t in wv.m && t.year == year {
      var t :| t in wv.m && t.year == year;
      var i :| 0 <= i < |wv.keys| && wv.keys[i] == t;
    }
  }

  /** The three ways a derived figure can fail. */
  datatype Failure = KeyError(year: int) | ZeroDivision | EmptyIteration

  datatype Outcome<T> = Ok(value: T) | Fail(err: Failure)

  /** `v` is `a / b - 1`, stated without division. */
  predicate IsRatioLessOne(v: real, a: real, b: real)
  {
    (v + 1.0) * b == a
  }

  /** `a / b - 1`, failing on a zero divisor. */
  function RatioLessOne(a: real, b: real): (r: Outcome<real>)
    ensures r.Ok? <==> b != 0.0
    ensures r.Ok? ==> IsRatioLessOne(r.value, a, b)
  {
    if b == 0.0 then Fail(ZeroDivision) else Ok(a / b - 1.0)
  }

  /**
   The two yearly P/L figures: `get_yearly_pl` divides the valuation by
   invested + earned; `get_yearly_pl_without_earnings` divides valuation -
   earned by invested.
   */
  datatype Basis = WithEarnings | WithoutEarnings

  /** Numerator and denominator of a year's P/L, once both columns hold the year. */
  function PLOperands(yv: OMap<int, real>, acc: Accounts, year: int, basis: Basis): (real, real)
    requires year in Column(acc.perYear, Invested).m && year in Column(acc.perYear, Earned).m
  {
    var inv := Column(acc.perYear, Invested).m[year];
    var earn := Column(acc.perYear, Earned).m[year];
    match basis
    case WithEarnings => (Get(yv, year, 0.0), inv + earn)
    case WithoutEarnings => (Get(yv, year, 0.0) - earn, inv)
  }

  /** The invested and earned columns hold `year`, and the P/L denominator is nonzero. */
  predicate YearPLDefined(yv: OMap<int, real>, acc: Accounts, year: int, basis: Basis)
  {
    && year in Column(acc.perYear, Invested).m && year in Column(acc.perYear, Earned).m
    && PLOperands(yv, acc, year, basis).1 != 0.0
  }

  /** `v` is the P/L of `year`: numerator over denominator, less one. */
  predicate PLEntry(yv: OMap<int, real>, acc: Accounts, year: int, basis: Basis, v: real)
  {
    YearPLDefined(yv, acc, year, basis) &&
    var ops := PLOperands(yv, acc, year, basis);
    IsRatioLessOne(v, ops.0, ops.1)
  }

  /** The loop of `get_yearly_pl` / `get_yearly_pl_without_earnings` over the years `keys`. */
  function YearlyPLOver(keys: seq<int>, yv: OMap<int, real>, acc: Accounts, basis: Basis): (r: Outcome<OMap<int, real>>)
    ensures r.Ok? ==> Valid(r.value)
  {
    if |keys| == 0 then Ok(Empty())
    else
      var y := keys[|keys| - 1];
      match YearlyPLOver(keys[..|keys| - 1], yv, acc, basis)
      case Fail(e) => Fail(e)
      case Ok(pl) =>
        if y !in Column(acc.perYear, Invested).m || y !in Column(acc.perYear, Earned).m then Fail(KeyError(y))
        else
          var ops := PLOperands(yv, acc, y, basis);
          match RatioLessOne(ops.0, ops.1)
          case Fail(e) => Fail(e)
          case Ok(v) => Ok(Put(pl, y, v))
  }

  /** `get_yearly_pl`. */
  function YearlyPL(yv: OMap<int, real>, acc: Accounts): Outcome<OMap<int, real>>
  {
    YearlyPLOver(yv.keys, yv, acc, WithEarnings)
  }

  /** `get_yearly_pl_without_earnings`. */
  function YearlyPLWithoutEarnings(yv: OMap<int, real>, acc: Accounts): Outcome<OMap<int, real>>
  {
    YearlyPLOver(yv.keys, yv, acc, WithoutEarnings)
  }

  /** One more year succeeds iff the earlier years did and this one is defined, and then adds this year's entry. */
  lemma YearlyPLStep(keys: seq<int>, yv: OMap<int, real>, acc: Accounts, basis: Basis)
    requires |keys| > 0
    ensures var y := keys[|keys| - 1];
      var prev := YearlyPLOver(keys[..|keys| - 1], yv, acc, basis);
      var r := YearlyPLOver(keys, yv, acc, basis);
      && (r.Ok? <==> prev.Ok? && YearPLDefined(yv, acc, y, basis))
      && (r.Ok? ==> exists v :: PLEntry(yv, acc, y, basis, v) && r.value == Put(prev.value, y, v))
  {
    var y := keys[|keys| - 1];
    var r := YearlyPLOver(keys, yv, acc, basis);
    if r.Ok? {
      var v := r.value.m[y];
      assert PLEntry(yv, acc, y, basis, v);
    }
  }

  /** The P/L succeeds iff every year is defined. */
  lemma {:induction false} YearlyPLSucceedsIff(keys: seq<int>, yv: OMap<int, real>, acc: Accounts, basis: Basis)
    ensures YearlyPLOver(keys, yv, acc, basis).Ok? <==> forall i :: 0 <= i < |keys| ==> YearPLDefined(yv, acc, keys[i], basis)
  {
    if |keys| > 0 {
      var n := |keys| - 1;
      YearlyPLSucceedsIff(keys[..n], yv, acc, basis);
      YearlyPLStep(keys, yv, acc, basis);
      assert forall i :: 0 <= i < n ==> keys[..n][i] == keys[i];
    }
  }

  /**
   On success over distinct years the P/L lists the same years in the same
   order, each holding numerator / denominator - 1 for its basis.
   */
  lemma {:induction false} YearlyPLValues(keys: seq<int>, yv: OMap<int, real>, acc: Accounts, basis: Basis)
    requires Distinct(keys)
    ensures YearlyPLOver(keys, yv, acc, basis).Ok? ==>
      var pl := YearlyPLOver(keys, yv, acc, basis).value;
      && pl.keys == keys
      && forall y :: y in pl.m ==> PLEntry(yv, acc, y, basis, pl.m[y])
  {
    if |keys| > 0 {
      var n := |keys| - 1;
      var init := keys[..n];
      assert Distinct(init);
      YearlyPLValues(init, yv, acc, basis);
      YearlyPLStep(keys, yv, acc, basis);
      var y := keys[n];
      var r := YearlyPLOver(keys, yv, acc, basis);
      if r.Ok? {
        var prev := YearlyPLOver(init, yv, acc, basis).value;
        var v :| PLEntry(yv, acc, y, basis, v) && r.value == Put(prev, y, v);
        assert y !in prev.m by {
          assert y !in init;
        }
        assert r.value.keys == keys;
        PLEntriesPut(prev, yv, acc, basis, y, v);
      }
    }
  }

  /** Adding one year's P/L entry to a table of P/L entries keeps every entry a P/L entry. */
  lemma PLEntriesPut(pl: OMap<int, real>, yv: OMap<int, real>, acc: Accounts, basis: Basis, y: int, v: real)
    requires forall x :: x in pl.m ==> PLEntry(yv, acc, x, basis, pl.m[x])
    requires PLEntry(yv, acc, y, basis, v)
    ensures forall x :: x in Put(pl, y, v).m ==> PLEntry(yv, acc, x, basis, Put(pl, y, v).m[x])
  {
  }

  /** The yearly P/L over a well-formed roll-up, for either basis. */
  lemma YearlyPLOverRollUp(yv: OMap<int, real>, acc: Accounts, basis: Basis)
    requires Valid(yv)
    ensures YearlyPLOver(yv.keys, yv, acc, basis).Ok? <==> forall y :: y in yv.m ==> YearPLDefined(yv, acc, y, basis)
    ensures YearlyPLOver(yv.keys, yv, acc, basis).Ok? ==>
      var pl := YearlyPLOver(yv.keys, yv, acc, basis).value;
      && pl.keys == yv.keys
      && forall y :: y in yv.m ==> PLEntry(yv, acc, y, basis, pl.m[y])
  {
    YearlyPLSucceedsIff(yv.keys, yv, acc, basis);
    YearlyPLValues(yv.keys, yv, acc, basis);
  }

  /**
   `get_yearly_pl` in full: it succeeds iff every rolled-up year is in the
   invested and earned books with invested + earned nonzero, and then lists
   the rolled-up years in order, each at valuation / (invested + earned) - 1.
   */
  lemma YearlyPLSpec(yv: OMap<int, real>, acc: Accounts)
    requires Valid(yv)
    ensures YearlyPL(yv, acc).Ok? <==> forall y :: y in yv.m ==> YearPLDefined(yv, acc, y, WithEarnings)
    ensures YearlyPL(yv, acc).Ok? ==>
      && YearlyPL(yv, acc).value.keys == yv.keys
      && forall y :: y in yv.m ==> PLEntry(yv, acc, y, WithEarnings, YearlyPL(yv, acc).value.m[y])
  {
    YearlyPLOverRollUp(yv, acc, WithEarnings);
  }

  /**
   `get_yearly_pl_without_earnings` in full: it succeeds iff every rolled-up
   year is in the invested and earned books with invested nonzero, and then
   lists the rolled-up years in order, each at (valuation - earned) / invested - 1.
   */
  lemma YearlyPLWithoutEarningsSpec(yv: OMap<int, real>, acc: Accounts)
    requires Valid(yv)
    ensures YearlyPLWithoutEarnings(yv, acc).Ok? <==> forall y :: y in yv.m ==> YearPLDefined(yv, acc, y, WithoutEarnings)
    ensures YearlyPLWithoutEarnings(yv, acc).Ok? ==>
      && YearlyPLWithoutEarnings(yv, acc).value.keys == yv.keys
      && forall y :: y in yv.m ==> PLEntry(yv, acc, y, WithoutEarnings, YearlyPLWithoutEarnings(yv, acc).value.m[y])
  {
    YearlyPLOverRollUp(yv, acc, WithoutEarnings);
  }

  /**
   A rolled-up year in which no ledger row falls has no per-year books, so both
   yearly P/L figures fail with a KeyError.
   */
  lemma UnbookedYearFails(yv: OMap<int, real>, rows: seq<Row>, mk: Market, year: int)
    requires year in yv.keys
    requires !HasYear(rows, year)
    ensures YearlyPL(yv, EarnedAmounts(rows, mk)).Fail?
    ensures YearlyPLWithoutEarnings(yv, EarnedAmounts(rows, mk)).Fail?
  {
    var acc := EarnedAmounts(rows, mk);
    PerYearKeys(rows, mk, Invested, year);
    var i :| 0 <= i < |yv.keys| && yv.keys[i] == year;
    assert !YearPLDefined(yv, acc, yv.keys[i], WithEarnings);
    assert !YearPLDefined(yv, acc, yv.keys[i], WithoutEarnings);
    YearlyPLSucceedsIff(yv.keys, yv, acc, WithEarnings);
    YearlyPLSucceedsIff(yv.keys, yv, acc, WithoutEarnings);
  }

  /** `get_total_pl_to_date`: current valuation sum over (invested + earned), less one. */
  function TotalPL(valuation: OMap<string, real>, acc: Accounts): (r: Outcome<real>)
    ensures r.Ok? <==> FlowSum(acc, Invested) + FlowSum(acc, Earned) != 0.0
    ensures r.Ok? ==> IsRatioLessOne(r.value, CurrentValuationSum(valuation, acc), FlowSum(acc, Invested) + FlowSum(acc, Earned))
  {
    RatioLessOne(CurrentValuationSum(valuation, acc), FlowSum(acc, Invested) + FlowSum(acc, Earned))
  }

  /**
   The operands of `get_cagr` before `math.pow`: the growth ratio since the
   first rolled-up year and the exponent 1 / years passed. Fails on an empty
   roll-up, a zero starting valuation, or a first year equal to the current one.
   */
  function CagrOperands(yv: OMap<int, real>, valuation: OMap<string, real>, acc: Accounts, nowYear: int): (r: Outcome<(real, real)>)
    ensures r == Fail(EmptyIteration) <==> |yv.keys| == 0
    ensures r.Ok? <==> |yv.keys| > 0 && Get(yv, yv.keys[0], 0.0) != 0.0 && nowYear != yv.keys[0]
    ensures r.Ok? ==> r.value.0 * Get(yv, yv.keys[0], 0.0) == CurrentValuationSum(valuation, acc)
    ensures r.Ok? ==> r.value.1 * (nowYear - yv.keys[0]) as real == 1.0
  {
    if |yv.keys| == 0 then Fail(EmptyIteration)
    else
      var ts := yv.keys[0];
      var start := Get(yv, ts, 0.0);
      if start == 0.0 then Fail(ZeroDivision)
      else
        var years := nowYear - ts;
        if years == 0 then Fail(ZeroDivision)
        else Ok((CurrentValuationSum(valuation, acc) / start, 1.0 / years as real))
  }
}
