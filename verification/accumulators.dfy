/**
 The second replay pass (`populate_earned_amounts`): every ledger row is priced
 at its week and its value is booked in exactly one of three flows, both per
 coin and per fiscal year.

 A row with zero cost is a reward when bought (earned) and a gift when sold
 (donated); a row with a cost is an investment, signed by its direction. The
 per-coin books open a coin (all three flows at 0) when it is missing from
 the earned column; the per-year books open a year when it is missing from the
 invested column.
 */
module Accumulators {
  import opened OrderedMaps
  import opened Ledger

  /** The three columns a row can be booked in. */
  datatype Flow = Earned | Donated | Invested

  /** Which column a row goes to, from its cost and its direction sign. */
  function FlowOf(cost: real, sign: int): (f: Flow)
    ensures f == Earned <==> cost == 0.0 && sign > 0
    ensures f == Donated <==> cost == 0.0 && sign <= 0
    ensures f == Invested <==> cost != 0.0
  {
    if cost == 0.0 then (if sign > 0 then Earned else Donated) else Invested
  }

  /** The column of a ledger row. */
  function RowFlow(r: Row): Flow
  {
    FlowOf(r.cost, Sign(r.kind))
  }

  /** The fiscal-year key of a row: December 26 of the row's calendar year, represented by the year. */
  function YearOf(r: Row): int
  {
    r.when.year
  }

  /** The row's coin priced at the row's week, through coin-id resolution. */
  function RowPrice(mk: Market, r: Row): real
  {
    Quote(mk, r.when)(Symbol(r))
  }

  /** The value a row books: `amount * price`, signed by direction for investments. */
  function Contribution(r: Row, price: real): (v: real)
    ensures RowFlow(r) != Invested ==> v == r.amount * price
    ensures RowFlow(r) == Invested && r.kind == "BUY" ==> v == r.amount * price
    ensures RowFlow(r) == Invested && r.kind != "BUY" ==> v == -(r.amount * price)
  {
    if RowFlow(r) == Invested then Sign(r.kind) as real * r.amount * price else r.amount * price
  }

  /** Three insertion-ordered columns keyed alike. */
  datatype Books<K> = Books(earned: OMap<K, real>, donated: OMap<K, real>, invested: OMap<K, real>)

  function Column<K>(bk: Books<K>, f: Flow): OMap<K, real>
  {
    match f
    case Earned => bk.earned
    case Donated => bk.donated
    case Invested => bk.invested
  }

  /** All three columns are well formed and list the same keys in the same order. */
  ghost predicate Synced<K(!new)>(bk: Books<K>)
  {
    && Valid(bk.earned) && Valid(bk.donated) && Valid(bk.invested)
    && bk.donated.keys == bk.earned.keys && bk.invested.keys == bk.earned.keys
  }

  function EmptyBooks<K(==,!new)>(): Books<K>
  {
    Books(Empty(), Empty(), Empty())
  }

  /** Open key `k` at 0 in all three columns when the `probe` column lacks it. */
  function Open<K(==,!new)>(bk: Books<K>, k: K, probe: Flow): Books<K>
  {
    if k in Column(bk, probe).m then bk
    else Books(Put(bk.earned, k, 0.0), Put(bk.donated, k, 0.0), Put(bk.invested, k, 0.0))
  }

  /** Increase the entry `k` of flow `f`'s column by `d`; the entry must already exist. */
  function Credit<K(==,!new)>(bk: Books<K>, k: K, f: Flow, d: real): (r: Books<K>)
  {
    match f
    case Earned => bk.(earned := Put(bk.earned, k, Get(bk.earned, k, 0.0) + d))
    case Donated => bk.(donated := Put(bk.donated, k, Get(bk.donated, k, 0.0) + d))
    case Invested => bk.(invested := Put(bk.invested, k, Get(bk.invested, k, 0.0) + d))
  }

  /** One booking: open `k` if the probe column lacks it, then add `d` to column `f` at `k`. */
  function Post<K(==,!new)>(bk: Books<K>, k: K, f: Flow, d: real, probe: Flow): Books<K>
  {
    Credit(Open(bk, k, probe), k, f, d)
  }

  /** Per-coin and per-year books. */
  datatype Accounts = Accounts(perCoin: Books<string>, perYear: Books<int>)

  ghost predicate AccountsSynced(acc: Accounts)
  {
    Synced(acc.perCoin) && Synced(acc.perYear)
  }

  /** One iteration of `populate_earned_amounts`. */
  function Record(acc: Accounts, r: Row, mk: Market): Accounts
  {
    var d := Contribution(r, RowPrice(mk, r));
    Accounts(Post(acc.perCoin, Symbol(r), RowFlow(r), d, Earned),
             Post(acc.perYear, YearOf(r), RowFlow(r), d, Invested))
  }

  /** `populate_earned_amounts`: book every row, in ledger order. */
  function EarnedAmounts(rows: seq<Row>, mk: Market): Accounts
  {
    if |rows| == 0 then Accounts(EmptyBooks(), EmptyBooks())
    else Record(EarnedAmounts(rows[..|rows| - 1], mk), rows[|rows| - 1], mk)
  }

  /** `get_earned_sum`, `get_donated_sum`, `get_invested_sum`: the sum of one per-coin column. */
  function FlowSum(acc: Accounts, f: Flow): real
  {
    SumValues(Column(acc.perCoin, f))
  }

  /** The same sum taken over the per-year column. */
  function YearlyFlowSum(acc: Accounts, f: Flow): real
  {
    SumValues(Column(acc.perYear, f))
  }

  /** Reference total: Σ of the contributions of the rows booked in flow `f`. */
  function FlowTotal(rows: seq<Row>, mk: Market, f: Flow): real
  {
    if |rows| == 0 then 0.0
    else
      var r := rows[|rows| - 1];
      FlowTotal(rows[..|rows| - 1], mk, f) + (if RowFlow(r) == f then Contribution(r, RowPrice(mk, r)) else 0.0)
  }

  /** Reference per-key total: Σ of the contributions of the rows of flow `f` whose key is `k`. */
  function FlowTotalAt<K(==)>(rows: seq<Row>, mk: Market, f: Flow, keyOf: Row -> K, k: K): real
  {
    if |rows| == 0 then 0.0
    else
      var r := rows[|rows| - 1];
      FlowTotalAt(rows[..|rows| - 1], mk, f, keyOf, k)
        + (if RowFlow(r) == f && keyOf(r) == k then Contribution(r, RowPrice(mk, r)) else 0.0)
  }

  /** Under `Synced` the two presence probes agree, so either decides whether a key is new. */
  lemma ProbesAgree<K(!new)>(bk: Books<K>, k: K, f: Flow, g: Flow)
    requires Synced(bk)
    ensures k in Column(bk, f).m <==> k in Column(bk, g).m
  {
  }

  /** Crediting touches only the column of its flow. */
  lemma CreditColumn<K(!new)>(bk: Books<K>, k: K, f: Flow, d: real, g: Flow)
    ensures Column(Credit(bk, k, f, d), g) ==
      if g == f then Put(Column(bk, g), k, Get(Column(bk, g), k, 0.0) + d) else Column(bk, g)
  {
  }

  /** Opening a key adds zeros: no column sum changes, and no present value changes. */
  lemma OpenKeepsSums<K(!new)>(bk: Books<K>, k: K, probe: Flow, g: Flow)
    requires Synced(bk)
    ensures SumValues(Column(Open(bk, k, probe), g)) == SumValues(Column(bk, g))
  {
    if k !in Column(bk, probe).m {
      ProbesAgree(bk, k, probe, g);
      AddToSum(Column(bk, g), k, 0.0);
    }
  }

  /** Crediting `d` moves the sum of its own column by `d` and leaves the other two sums alone. */
  lemma CreditMovesOneSum<K(!new)>(bk: Books<K>, k: K, f: Flow, d: real, g: Flow)
    requires Valid(Column(bk, g))
    ensures Valid(Column(Credit(bk, k, f, d), g))
    ensures SumValues(Column(Credit(bk, k, f, d), g)) == SumValues(Column(bk, g)) + (if g == f then d else 0.0)
  {
    CreditColumn(bk, k, f, d, g);
    if g == f {
      var c := Column(bk, g);
      assert Column(Credit(bk, k, f, d), g) == Put(c, k, Get(c, k, 0.0) + d);
      AddToSum(c, k, d);
    }
  }

  /** A booking moves the sum of its own column by `d` and leaves the other two sums alone. */
  lemma PostMovesOneSum<K(!new)>(bk: Books<K>, k: K, f: Flow, d: real, probe: Flow, g: Flow)
    requires Synced(bk)
    ensures SumValues(Column(Post(bk, k, f, d, probe), g)) == SumValues(Column(bk, g)) + (if g == f then d else 0.0)
  {
    var o := Open(bk, k, probe);
    assert SumValues(Column(o, g)) == SumValues(Column(bk, g)) by {
      OpenKeepsSums(bk, k, probe, g);
    }
    assert Post(bk, k, f, d, probe) == Credit(o, k, f, d);
    assert Valid(Column(o, g)) && Valid(Column(bk, g));
    CreditMovesOneSum(o, k, f, d, g);
  }

  /** A booking adds `d` at key `k` of column `f` only; absent entries read as 0. */
  lemma PostMovesOneEntry<K(!new)>(bk: Books<K>, k: K, f: Flow, d: real, probe: Flow, g: Flow, j: K)
    requires Synced(bk)
    ensures j in Column(Post(bk, k, f, d, probe), g).m <==> j in Column(bk, g).m || j == k
    ensures Get(Column(Post(bk, k, f, d, probe), g), j, 0.0) ==
      Get(Column(bk, g), j, 0.0) + (if g == f && j == k then d else 0.0)
  {
    ProbesAgree(bk, k, probe, g);
    var o := Open(bk, k, probe);
    assert Post(bk, k, f, d, probe) == Credit(o, k, f, d);
    CreditColumn(o, k, f, d, g);
  }

  /** A booking keeps the three columns well formed and keyed alike, whichever column is probed. */
  lemma PostKeepsSynced<K(!new)>(bk: Books<K>, k: K, f: Flow, d: real, probe: Flow)
    requires Synced(bk)
    ensures Synced(Post(bk, k, f, d, probe))
  {
    var o := Open(bk, k, probe);
    ProbesAgree(bk, k, probe, Earned);
    assert Synced(o);
    assert k in o.earned.m && k in o.donated.m && k in o.invested.m;
  }

  /**
   `get_earned_sum`, `get_donated_sum` and `get_invested_sum` are the reference
   totals, and the per-year columns sum to the same totals: every row is
   booked once per coin and once per year, in the same flow, with the same value.
   */
  lemma {:induction false} SumsMatchReference(rows: seq<Row>, mk: Market, f: Flow)
    ensures FlowSum(EarnedAmounts(rows, mk), f) == FlowTotal(rows, mk, f)
    ensures YearlyFlowSum(EarnedAmounts(rows, mk), f) == FlowTotal(rows, mk, f)
  {
    if |rows| > 0 {
      var init := rows[..|rows| - 1];
      var r := rows[|rows| - 1];
      SumsMatchReference(init, mk, f);
      EarnedAmountsSynced(init, mk);
      var acc := EarnedAmounts(init, mk);
      var d := Contribution(r, RowPrice(mk, r));
      PostMovesOneSum(acc.perCoin, Symbol(r), RowFlow(r), d, Earned, f);
      PostMovesOneSum(acc.perYear, YearOf(r), RowFlow(r), d, Invested, f);
    }
  }

  /** Per coin and per year sum to the same total in every flow. */
  lemma PerCoinAndPerYearAgree(rows: seq<Row>, mk: Market, f: Flow)
    ensures FlowSum(EarnedAmounts(rows, mk), f) == YearlyFlowSum(EarnedAmounts(rows, mk), f)
  {
    SumsMatchReference(rows, mk, f);
  }

  /** One more row is one more booking in each set of books. */
  lemma EarnedAmountsStep(rows: seq<Row>, mk: Market)
    requires |rows| > 0
    ensures var r := rows[|rows| - 1];
      var acc := EarnedAmounts(rows[..|rows| - 1], mk);
      var d := Contribution(r, RowPrice(mk, r));
      && EarnedAmounts(rows, mk).perCoin == Post(acc.perCoin, Symbol(r), RowFlow(r), d, Earned)
      && EarnedAmounts(rows, mk).perYear == Post(acc.perYear, YearOf(r), RowFlow(r), d, Invested)
  {
  }

  /** Both sets of books stay well formed and keyed alike throughout the pass. */
  lemma {:induction false} EarnedAmountsSynced(rows: seq<Row>, mk: Market)
    ensures AccountsSynced(EarnedAmounts(rows, mk))
  {
    if |rows| > 0 {
      var init := rows[..|rows| - 1];
      var r := rows[|rows| - 1];
      EarnedAmountsSynced(init, mk);
      EarnedAmountsStep(rows, mk);
      var acc := EarnedAmounts(init, mk);
      var d := Contribution(r, RowPrice(mk, r));
      PostKeepsSynced(acc.perCoin, Symbol(r), RowFlow(r), d, Earned);
      PostKeepsSynced(acc.perYear, YearOf(r), RowFlow(r), d, Invested);
    }
  }

  /** A coin has per-coin entries exactly when some row names it. */
  lemma {:induction false} PerCoinKeys(rows: seq<Row>, mk: Market, f: Flow, sym: string)
    ensures sym in Column(EarnedAmounts(rows, mk).perCoin, f).m <==> Seen(rows, sym)
  {
    if |rows| > 0 {
      var init := rows[..|rows| - 1];
      var r := rows[|rows| - 1];
      assert rows == init + [r];
      PerCoinKeys(init, mk, f, sym);
      SeenSnoc(init, r, sym);
      EarnedAmountsSynced(init, mk);
      EarnedAmountsStep(rows, mk);
      PostMovesOneEntry(EarnedAmounts(init, mk).perCoin, Symbol(r), RowFlow(r), Contribution(r, RowPrice(mk, r)), Earned, f, sym);
    }
  }

  /** Each per-coin entry is the reference total of that coin's rows in that flow (0 when absent). */
  lemma {:induction false} PerCoinMatchesReference(rows: seq<Row>, mk: Market, f: Flow, sym: string)
    ensures Get(Column(EarnedAmounts(rows, mk).perCoin, f), sym, 0.0) == FlowTotalAt(rows, mk, f, Symbol, sym)
  {
    if |rows| > 0 {
      var init := rows[..|rows| - 1];
      var r := rows[|rows| - 1];
      PerCoinMatchesReference(init, mk, f, sym);
      EarnedAmountsSynced(init, mk);
      EarnedAmountsStep(rows, mk);
      PostMovesOneEntry(EarnedAmounts(init, mk).perCoin, Symbol(r), RowFlow(r), Contribution(r, RowPrice(mk, r)), Earned, f, sym);
    }
  }

  /** Some row falls in `year`. */
  predicate HasYear(rows: seq<Row>, year: int)
  {
    exists i :: 0 <= i < |rows| && YearOf(rows[i]) == year
  }

  lemma HasYearSnoc(rows: seq<Row>, year: int)
    requires |rows| > 0
    ensures HasYear(rows, year) <==> HasYear(rows[..|rows| - 1], year) || YearOf(rows[|rows| - 1]) == year
  {
    var init := rows[..|rows| - 1];
    assert forall i :: 0 <= i < |init| ==> init[i] == rows[i];
  }

  /** A year has per-year entries exactly when some row falls in it. */
  lemma {:induction false} PerYearKeys(rows: seq<Row>, mk: Market, f: Flow, year: int)
    ensures year in Column(EarnedAmounts(rows, mk).perYear, f).m <==> HasYear(rows, year)
  {
    if |rows| > 0 {
      var init := rows[..|rows| - 1];
      var r := rows[|rows| - 1];
      PerYearKeys(init, mk, f, year);
      HasYearSnoc(rows, year);
      EarnedAmountsSynced(init, mk);
      EarnedAmountsStep(rows, mk);
      PostMovesOneEntry(EarnedAmounts(init, mk).perYear, YearOf(r), RowFlow(r), Contribution(r, RowPrice(mk, r)), Invested, f, year);
    }
  }

  /** Each per-year entry is the reference total of that year's rows in that flow (0 when absent). */
  lemma {:induction false} PerYearMatchesReference(rows: seq<Row>, mk: Market, f: Flow, year: int)
    ensures Get(Column(EarnedAmounts(rows, mk).perYear, f), year, 0.0) == FlowTotalAt(rows, mk, f, YearOf, year)
  {
    if |rows| > 0 {
      var init := rows[..|rows| - 1];
      var r := rows[|rows| - 1];
      PerYearMatchesReference(init, mk, f, year);
      EarnedAmountsSynced(init, mk);
      EarnedAmountsStep(rows, mk);
      PostMovesOneEntry(EarnedAmounts(init, mk).perYear, YearOf(r), RowFlow(r), Contribution(r, RowPrice(mk, r)), Invested, f, year);
    }
  }

  /**
   `populate_earned_amounts` in full: both sets of books stay well formed and
   keyed alike; a coin (a fiscal year) has entries iff some row names it
   (falls in it); and each entry is the total contribution of its rows in
   that flow.
   */
  lemma EarnedAmountsSpec(rows: seq<Row>, mk: Market, f: Flow, sym: string, year: int)
    ensures AccountsSynced(EarnedAmounts(rows, mk))
    ensures sym in Column(EarnedAmounts(rows, mk).perCoin, f).m <==> Seen(rows, sym)
    ensures Get(Column(EarnedAmounts(rows, mk).perCoin, f), sym, 0.0) == FlowTotalAt(rows, mk, f, Symbol, sym)
    ensures year in Column(EarnedAmounts(rows, mk).perYear, f).m <==> HasYear(rows, year)
    ensures Get(Column(EarnedAmounts(rows, mk).perYear, f), year, 0.0) == FlowTotalAt(rows, mk, f, YearOf, year)
  {
    EarnedAmountsSynced(rows, mk);
    PerCoinKeys(rows, mk, f, sym);
    PerCoinMatchesReference(rows, mk, f, sym);
    PerYearKeys(rows, mk, f, year);
    PerYearMatchesReference(rows, mk, f, year);
  }
}
