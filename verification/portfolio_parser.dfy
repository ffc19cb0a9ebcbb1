/**
 The portfolio as its constructor leaves it: the balance replay with its
 weekly valuation (including the final re-valuation at "now"), the earned /
 donated / invested books, the current valuation and the year-end roll-up.
 */
module PortfolioParser {
  import opened Calendar
  import opened OrderedMaps
  import opened Ledger
  import opened Accumulators
  import opened Derivations

  datatype Portfolio = Portfolio(
    balances: Balances,
    weekly: Valuations,
    valuation: OMap<string, real>,
    books: Accounts,
    yearly: OMap<int, real>)

  ghost predicate WellFormed(p: Portfolio)
  {
    Valid(p.balances) && Valid(p.weekly) && Valid(p.valuation) && AccountsSynced(p.books) && Valid(p.yearly)
  }

  /**
   The constructor: `populate_balances` (which ends with
   `populate_earned_amounts`), then `populate_valuation`, then
   `populate_yearly_valuation`.
   */
  function Build(rows: seq<Row>, mk: Market, now: DateTime): Portfolio
  {
    var st := PopulateBalances(rows, mk, now);
    Portfolio(st.balances, st.weekly, PopulateValuation(st.balances, mk),
              EarnedAmounts(rows, mk), PopulateYearlyValuation(st.weekly))
  }

  /** Every dict the constructor fills is well formed, and the three columns of each set of books list the same keys. */
  lemma BuildWellFormed(rows: seq<Row>, mk: Market, now: DateTime)
    ensures WellFormed(Build(rows, mk, now))
  {
    EarnedAmountsSynced(rows, mk);
  }

  /** A coin is held exactly when the ledger names it, and its holding is its reference balance, whatever the prices. */
  lemma HoldingsAreReferenceBalances(rows: seq<Row>, mk: Market, now: DateTime, s: string)
    ensures s in Build(rows, mk, now).balances.m <==> Seen(rows, s)
    ensures s in Build(rows, mk, now).balances.m ==>
      Build(rows, mk, now).balances.m[s] == ReferenceBalance(rows, s)
  {
    BalancesMatchReference(rows, s);
  }

  /** Earned, donated and invested sums are the reference totals of the ledger. */
  lemma SumsAreReferenceTotals(rows: seq<Row>, mk: Market, now: DateTime, f: Flow)
    ensures FlowSum(Build(rows, mk, now).books, f) == FlowTotal(rows, mk, f)
  {
    SumsMatchReference(rows, mk, f);
  }

  /**
   When some held coin has a price in the current week, the final
   re-valuation creates an entry keyed "now", so the current year appears in
   the roll-up.
   */
  lemma CurrentYearRolledUp(rows: seq<Row>, mk: Market, now: DateTime)
    requires AnyPriced(Holdings(rows).keys, Quote(mk, now))
    ensures now in Build(rows, mk, now).weekly.m
    ensures now.year in Build(rows, mk, now).yearly.m
  {
    var p := Build(rows, mk, now);
    assert now in p.weekly.m;
    RollUpKeepsLastOfYear(p.weekly.keys, p.weekly, now.year);
    var i :| 0 <= i < |p.weekly.keys| && p.weekly.keys[i] == now;
  }

  /**
   When no ledger row is stamped "now" and some held coin is priced in the
   current week, the entry keyed "now" is the last weekly key, so the current
   year rolls up to the valuation at "now".
   */
  lemma {:induction false} CurrentYearIsNowValuation(rows: seq<Row>, mk: Market, now: DateTime)
    requires AnyPriced(Holdings(rows).keys, Quote(mk, now))
    requires forall i :: 0 <= i < |rows| ==> rows[i].when != now
    ensures var p := Build(rows, mk, now);
      now in p.weekly.m && now.year in p.yearly.m && p.yearly.m[now.year] == p.weekly.m[now]
  {
    var st := PopulateBalances(rows, mk, now);
    NowIsLastKey(rows, mk, now);
    LastKeyClosesItsYear(st.weekly);
  }

  /**
   A rolled-up year in which no ledger row falls has no per-year books, so
   both yearly P/L figures fail with a KeyError. The final re-valuation at
   "now" produces exactly this when the ledger has no row in the current year.
   */
  lemma UnbookedYearBreaksYearlyPL(rows: seq<Row>, mk: Market, now: DateTime, year: int)
    requires year in Build(rows, mk, now).yearly.m
    requires !HasYear(rows, year)
    ensures YearlyPL(Build(rows, mk, now).yearly, Build(rows, mk, now).books).Fail?
    ensures YearlyPLWithoutEarnings(Build(rows, mk, now).yearly, Build(rows, mk, now).books).Fail?
  {
    var p := Build(rows, mk, now);
    UnbookedYearFails(p.yearly, rows, mk, year);
  }
}
