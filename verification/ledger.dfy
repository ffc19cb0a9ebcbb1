/**
 The first replay pass over the ledger (`populate_balances`): per-coin balances
 and the per-event portfolio re-valuation.

 For every row, in ledger order, the row's normalised symbol has its balance
 updated, then EVERY coin held so far is priced at the row's week and
 `balance * price` is added to the weekly-valuation entry keyed by the row's
 raw timestamp, skipping coins priced 0. After the last row one more
 re-valuation is made at "now".
 */
module Ledger {
  import opened Calendar
  import opened Symbols
  import opened OrderedMaps

  /** One ledger row: Date, "Base currency", "Base amount", "Costs/Proceeds" and "Type". */
  datatype Row = Row(when: DateTime, currency: string, amount: real, cost: real, kind: string)

  /**
   The market data the replay consults: the coin catalog, the weekly price of a
   coin id at a week-start day (0 when unpriced) and the current spot price.
   */
  datatype Market = Market(catalog: seq<CatalogEntry>, weekly: (string, int) -> real, spot: string -> real)

  type Balances = OMap<string, real>
  type Valuations = OMap<DateTime, real>

  /** +1 for a purchase row, -1 for every other row type. */
  function Sign(kind: string): (s: int)
    ensures s == 1 <==> kind == "BUY"
    ensures s == -1 <==> kind != "BUY"
  {
    (if kind == "BUY" then 1 else 0) * 2 - 1
  }

  /** The balance key of a row: its normalised currency label. */
  function Symbol(r: Row): string
  {
    Normalize(r.currency)
  }

  function SymbolColumn(rows: seq<Row>): seq<string>
  {
    seq(|rows|, i requires 0 <= i < |rows| => Symbol(rows[i]))
  }

  /** Weekly prices of balance symbols at the week of `t`, through coin-id resolution. */
  function Quote(mk: Market, t: DateTime): string -> real
  {
    sym => mk.weekly(Resolve(mk.catalog, sym), StartOfWeek(t))
  }

  /**
   `add_to_balances`: an unseen coin's balance becomes `amount` whatever the
   sign; a seen coin moves by `sign * amount`. No other coin changes, and a new
   coin goes to the end of the key order.
   */
  function AddToBalances(b: Balances, sym: string, amount: real, sign: int): (r: Balances)
    requires Valid(b)
    ensures Valid(r)
    ensures sym in r.m
    ensures sym !in b.m ==> r.m[sym] == amount && r.keys == b.keys + [sym]
    ensures sym in b.m ==> r.m[sym] == b.m[sym] + sign as real * amount && r.keys == b.keys
    ensures forall c :: c != sym ==> (c in r.m <==> c in b.m)
    ensures forall c :: c != sym && c in b.m ==> r.m[c] == b.m[c]
  {
    if sym !in b.m then Put(b, sym, amount)
    else Put(b, sym, b.m[sym] + sign as real * amount)
  }

  /** The value of `amount` units at `price`. */
  function Worth(amount: real, price: real): real
  {
    amount * price
  }

  /** Σ balance * price over the coins of `syms` whose price is nonzero. */
  function PricedValue(b: Balances, syms: seq<string>, quote: string -> real): real
  {
    if |syms| == 0 then 0.0
    else
      var c := syms[|syms| - 1];
      var rest := PricedValue(b, syms[..|syms| - 1], quote);
      if quote(c) == 0.0 then rest else rest + Worth(Get(b, c, 0.0), quote(c))
  }

  /** Some coin of `syms` has a nonzero price. */
  predicate AnyPriced(syms: seq<string>, quote: string -> real)
  {
    exists i :: 0 <= i < |syms| && quote(syms[i]) != 0.0
  }

  /** A coin list is priced iff its prefix is or its last coin is. */
  lemma AnyPricedSnoc(syms: seq<string>, quote: string -> real)
    requires |syms| > 0
    ensures AnyPriced(syms, quote) <==> AnyPriced(syms[..|syms| - 1], quote) || quote(syms[|syms| - 1]) != 0.0
  {
    var init := syms[..|syms| - 1];
    assert forall i :: 0 <= i < |init| ==> init[i] == syms[i];
  }

  /** A coin list none of whose coins is priced is worth 0. */
  lemma {:induction false} UnpricedIsWorthless(b: Balances, syms: seq<string>, quote: string -> real)
    requires !AnyPriced(syms, quote)
    ensures PricedValue(b, syms, quote) == 0.0
  {
    if |syms| > 0 {
      var init := syms[..|syms| - 1];
      assert !AnyPriced(init, quote) by {
        assert forall i :: 0 <= i < |init| ==> init[i] == syms[i];
      }
      assert quote(syms[|syms| - 1]) == 0.0;
      UnpricedIsWorthless(b, init, quote);
    }
  }

  /** The valuation entry keyed by the current timestamp, while the coin loop runs: absent, or its value so far. */
  datatype Entry = Absent | Present(value: real)

  function EntryOf(wv: Valuations, t: DateTime): Entry
  {
    if t in wv.m then Present(wv.m[t]) else Absent
  }

  /** The weekly valuation at `t`, or 0 when it has no entry there. */
  function ValueOr0(e: Entry): real
  {
    if e.Present? then e.value else 0.0
  }

  /**
   The loop of `add_to_weekly_valuation` over the coins `syms`, one coin at a
   time; it only ever touches the entry keyed by the current timestamp, so it
   is followed here on that entry alone.
   */
  function ValueInto(e: Entry, b: Balances, syms: seq<string>, quote: string -> real): Entry
  {
    if |syms| == 0 then e
    else
      var c := syms[|syms| - 1];
      var acc := ValueInto(e, b, syms[..|syms| - 1], quote);
      if quote(c) == 0.0 then acc
      else Present(ValueOr0(acc) + Worth(Get(b, c, 0.0), quote(c)))
  }

  /**
   The loop's effect is a single addition of the priced value of all coins to
   the entry, which is created only if some coin is priced; otherwise nothing
   changes.
   */
  lemma {:induction false} ValueIntoClosedForm(e: Entry, b: Balances, syms: seq<string>, quote: string -> real)
    ensures AnyPriced(syms, quote) ==> ValueInto(e, b, syms, quote) == Present(ValueOr0(e) + PricedValue(b, syms, quote))
    ensures !AnyPriced(syms, quote) ==> ValueInto(e, b, syms, quote) == e
  {
    if |syms| > 0 {
      var init := syms[..|syms| - 1];
      ValueIntoClosedForm(e, b, init, quote);
      AnyPricedSnoc(syms, quote);
      if !AnyPriced(init, quote) {
        UnpricedIsWorthless(b, init, quote);
      }
    }
  }

  /**
   `add_to_weekly_valuation(dt)`: re-value every held coin at the week of `t`
   and add the total to the entry keyed `t`, created only when some held coin
   is priced.
   */
  function AddToWeeklyValuation(wv: Valuations, mk: Market, b: Balances, t: DateTime): (r: Valuations)
    requires Valid(wv)
    ensures Valid(r)
    ensures AnyPriced(b.keys, Quote(mk, t)) ==> r == Put(wv, t, Get(wv, t, 0.0) + PricedValue(b, b.keys, Quote(mk, t)))
    ensures !AnyPriced(b.keys, Quote(mk, t)) ==> r == wv
  {
    var e := ValueInto(EntryOf(wv, t), b, b.keys, Quote(mk, t));
    ValueIntoClosedForm(EntryOf(wv, t), b, b.keys, Quote(mk, t));
    if e.Present? then Put(wv, t, e.value) else wv
  }

  /** The replay's state: balances and weekly valuations. */
  datatype Replay = Replay(balances: Balances, weekly: Valuations)

  /** The loop of `populate_balances` over `rows`: balance update then re-valuation, row by row. */
  function ReplayRows(rows: seq<Row>, mk: Market): (st: Replay)
    ensures Valid(st.balances) && Valid(st.weekly)
  {
    if |rows| == 0 then Replay(Empty(), Empty())
    else
      var r := rows[|rows| - 1];
      var st := ReplayRows(rows[..|rows| - 1], mk);
      var b := AddToBalances(st.balances, Symbol(r), r.amount, Sign(r.kind));
      Replay(b, AddToWeeklyValuation(st.weekly, mk, b, r.when))
  }

  /** The balance half of the replay on its own: `add_to_balances` for every row, in order. */
  function Holdings(rows: seq<Row>): (b: Balances)
    ensures Valid(b)
  {
    if |rows| == 0 then Empty()
    else
      var r := rows[|rows| - 1];
      AddToBalances(Holdings(rows[..|rows| - 1]), Symbol(r), r.amount, Sign(r.kind))
  }

  /** The replay's balances do not depend on prices: they are the holdings of the rows. */
  lemma {:induction false} ReplayHoldings(rows: seq<Row>, mk: Market)
    ensures ReplayRows(rows, mk).balances == Holdings(rows)
  {
    if |rows| > 0 {
      ReplayHoldings(rows[..|rows| - 1], mk);
    }
  }

  /**
   Reference weekly valuation at `t`, row by row: every row stamped `t` adds
   the priced value of the holdings right after it, at the week of `t`.
   */
  function WeeklyReference(rows: seq<Row>, mk: Market, t: DateTime): real
  {
    if |rows| == 0 then 0.0
    else
      var b := Holdings(rows);
      WeeklyReference(rows[..|rows| - 1], mk, t)
      + (if rows[|rows| - 1].when == t then PricedValue(b, b.keys, Quote(mk, t)) else 0.0)
  }

  /** Row `i` is stamped `t` and leaves holdings of which at least one coin is priced at the week of `t`. */
  predicate PricedRow(rows: seq<Row>, mk: Market, t: DateTime, i: int)
    requires 0 <= i < |rows|
  {
    rows[i].when == t && AnyPriced(Holdings(rows[..i + 1]).keys, Quote(mk, t))
  }

  /** Some row stamped `t` leaves a priced coin. */
  predicate PricedAt(rows: seq<Row>, mk: Market, t: DateTime)
  {
    exists i :: 0 <= i < |rows| && PricedRow(rows, mk, t, i)
  }

  /** Row `i` of a ledger is priced as it is in any longer ledger. */
  lemma PricedRowPrefix(rows: seq<Row>, mk: Market, t: DateTime, i: int, n: int)
    requires 0 <= i < n <= |rows|
    ensures PricedRow(rows[..n], mk, t, i) == PricedRow(rows, mk, t, i)
  {
    assert rows[..n][..i + 1] == rows[..i + 1];
  }

  lemma {:induction false} PricedAtSnoc(rows: seq<Row>, mk: Market, t: DateTime)
    requires |rows| > 0
    ensures PricedAt(rows, mk, t) <==>
      PricedAt(rows[..|rows| - 1], mk, t) || PricedRow(rows, mk, t, |rows| - 1)
  {
    var k := |rows| - 1;
    if PricedAt(rows, mk, t) {
      var i :| 0 <= i < |rows| && PricedRow(rows, mk, t, i);
      if i < k {
        PricedRowPrefix(rows, mk, t, i, k);
      }
    }
    if PricedAt(rows[..k], mk, t) {
      var i :| 0 <= i < k && PricedRow(rows[..k], mk, t, i);
      PricedRowPrefix(rows, mk, t, i, k);
    }
  }

  /** The mapping of `AddToWeeklyValuation`, on a plain map. */
  function RevalueMap(w: map<DateTime, real>, mk: Market, b: Balances, t: DateTime): map<DateTime, real>
  {
    if AnyPriced(b.keys, Quote(mk, t))
    then w[t := (if t in w then w[t] else 0.0) + PricedValue(b, b.keys, Quote(mk, t))]
    else w
  }

  lemma RevalueMapAgrees(wv: Valuations, mk: Market, b: Balances, t: DateTime)
    requires Valid(wv)
    ensures AddToWeeklyValuation(wv, mk, b, t).m == RevalueMap(wv.m, mk, b, t)
  {
  }

  /**
   The weekly valuation's mapping, replayed on a plain map from the holdings
   after each row.
   */
  function WeeklyMap(rows: seq<Row>, mk: Market): map<DateTime, real>
  {
    if |rows| == 0 then map[]
    else RevalueMap(WeeklyMap(rows[..|rows| - 1], mk), mk, Holdings(rows), rows[|rows| - 1].when)
  }

  lemma {:induction false} ReplayWeeklyMap(rows: seq<Row>, mk: Market)
    ensures ReplayRows(rows, mk).balances == Holdings(rows)
    ensures ReplayRows(rows, mk).weekly.m == WeeklyMap(rows, mk)
    decreases |rows|
  {
    if |rows| > 0 {
      var k := |rows| - 1;
      ReplayWeeklyMap(rows[..k], mk);
      var st := ReplayRows(rows[..k], mk);
      var r := rows[k];
      var b := AddToBalances(st.balances, Symbol(r), r.amount, Sign(r.kind));
      assert b == Holdings(rows);
      assert ReplayRows(rows, mk).weekly == AddToWeeklyValuation(st.weekly, mk, b, r.when);
      RevalueMapAgrees(st.weekly, mk, b, r.when);
    }
  }

  /** The entry at `t` holds the reference sum. */
  lemma {:induction false} WeeklyMapValue(rows: seq<Row>, mk: Market, t: DateTime)
    ensures (if t in WeeklyMap(rows, mk) then WeeklyMap(rows, mk)[t] else 0.0) == WeeklyReference(rows, mk, t)
    decreases |rows|
  {
    if |rows| > 0 {
      var k := |rows| - 1;
      WeeklyMapValue(rows[..k], mk, t);
      var b := Holdings(rows);
      if rows[k].when == t && !AnyPriced(b.keys, Quote(mk, t)) {
        UnpricedIsWorthless(b, b.keys, Quote(mk, t));
      }
    }
  }

  /** The map has an entry at `t` iff some row stamped `t` left a priced coin. */
  lemma {:induction false} WeeklyMapKeys(rows: seq<Row>, mk: Market, t: DateTime)
    ensures t in WeeklyMap(rows, mk) <==> PricedAt(rows, mk, t)
    decreases |rows|
  {
    if |rows| > 0 {
      var k := |rows| - 1;
      WeeklyMapKeys(rows[..k], mk, t);
      PricedAtSnoc(rows, mk, t);
      assert rows[..k + 1] == rows;
    }
  }

  /**
   The timestamps at which the replay re-values, in ledger order: one per row
   after which some held coin is priced at the row's week.
   */
  function PricedTimes(rows: seq<Row>, mk: Market): seq<DateTime>
  {
    if |rows| == 0 then []
    else
      var t := rows[|rows| - 1].when;
      PricedTimes(rows[..|rows| - 1], mk) + (if AnyPriced(Holdings(rows).keys, Quote(mk, t)) then [t] else [])
  }

  /** One re-valuation keeps the keys the first sightings of the re-valued times, the new one included. */
  lemma RevalueKeyOrder(wv: Valuations, mk: Market, b: Balances, t: DateTime, ts: seq<DateTime>)
    requires Valid(wv) && wv.keys == FirstSightings(ts)
    ensures AddToWeeklyValuation(wv, mk, b, t).keys ==
      FirstSightings(ts + (if AnyPriced(b.keys, Quote(mk, t)) then [t] else []))
  {
    if AnyPriced(b.keys, Quote(mk, t)) {
      assert (ts + [t])[..|ts|] == ts;
      assert t in wv.m <==> t in FirstSightings(ts);
    } else {
      assert ts + [] == ts;
    }
  }

  /** The weekly keys are in order of the first re-valuation at each time: dict insertion order. */
  lemma {:induction false} ReplayKeyOrder(rows: seq<Row>, mk: Market)
    ensures ReplayRows(rows, mk).weekly.keys == FirstSightings(PricedTimes(rows, mk))
    decreases |rows|
  {
    if |rows| > 0 {
      var k := |rows| - 1;
      ReplayKeyOrder(rows[..k], mk);
      ReplayHoldings(rows[..k], mk);
      var st := ReplayRows(rows[..k], mk);
      var r := rows[k];
      var b := AddToBalances(st.balances, Symbol(r), r.amount, Sign(r.kind));
      assert b == Holdings(rows);
      assert ReplayRows(rows, mk).weekly == AddToWeeklyValuation(st.weekly, mk, b, r.when);
      RevalueKeyOrder(st.weekly, mk, b, r.when, PricedTimes(rows[..k], mk));
    }
  }

  /**
   The replay in full: its balances are the holdings of the rows, and the
   weekly valuation has an entry at `t` iff some row stamped `t` left a priced
   coin, holding the reference sum of the priced values of those rows; the
   entries are in order of their first re-valuation.
   */
  lemma ReplayRowsSpec(rows: seq<Row>, mk: Market, t: DateTime)
    ensures ReplayRows(rows, mk).balances == Holdings(rows)
    ensures t in ReplayRows(rows, mk).weekly.m <==> PricedAt(rows, mk, t)
    ensures Get(ReplayRows(rows, mk).weekly, t, 0.0) == WeeklyReference(rows, mk, t)
    ensures ReplayRows(rows, mk).weekly.keys == FirstSightings(PricedTimes(rows, mk))
  {
    ReplayKeyOrder(rows, mk);
    ReplayHoldings(rows, mk);
    ReplayWeeklyMap(rows, mk);
    WeeklyMapKeys(rows, mk, t);
    WeeklyMapValue(rows, mk, t);
  }

  /** `populate_balances` up to the earned-amount pass: replay every row, then re-value once more at `now`. */
  function PopulateBalances(rows: seq<Row>, mk: Market, now: DateTime): (st: Replay)
    ensures Valid(st.balances) && Valid(st.weekly)
    ensures st.balances == Holdings(rows)
  {
    var st := ReplayRows(rows, mk);
    ReplayHoldings(rows, mk);
    Replay(st.balances, AddToWeeklyValuation(st.weekly, mk, st.balances, now))
  }

  /** The balances list the coins in order of their first row: dict insertion order. */
  lemma {:induction false} BalanceKeyOrder(rows: seq<Row>)
    ensures Holdings(rows).keys == FirstSightings(SymbolColumn(rows))
  {
    if |rows| > 0 {
      var init := rows[..|rows| - 1];
      BalanceKeyOrder(init);
      assert SymbolColumn(rows)[..|rows| - 1] == SymbolColumn(init);
      FirstSightingsSpec(SymbolColumn(init));
    }
  }

  /** Every weekly-valuation key is the timestamp of some row. */
  lemma {:induction false} ValuationKeysAreRowTimes(rows: seq<Row>, mk: Market)
    ensures forall t :: t in ReplayRows(rows, mk).weekly.m ==> exists i :: 0 <= i < |rows| && rows[i].when == t
  {
    if |rows| > 0 {
      var init := rows[..|rows| - 1];
      ValuationKeysAreRowTimes(init, mk);
      var r := rows[|rows| - 1];
      var st := ReplayRows(init, mk);
      var b := AddToBalances(st.balances, Symbol(r), r.amount, Sign(r.kind));
      assert ReplayRows(rows, mk).weekly == AddToWeeklyValuation(st.weekly, mk, b, r.when);
      forall t | t in ReplayRows(rows, mk).weekly.m
        ensures exists i :: 0 <= i < |rows| && rows[i].when == t
      {
        if t != r.when {
          assert t in st.weekly.m;
          var i :| 0 <= i < |init| && init[i].when == t;
          assert rows[i] == init[i];
        }
      }
    }
  }

  /**
   The final re-valuation appends `now` after the replayed keys when some held
   coin is priced at its week and no replayed entry is keyed `now`.
   */
  lemma PopulatedKeyOrder(rows: seq<Row>, mk: Market, now: DateTime)
    ensures PopulateBalances(rows, mk, now).weekly.keys ==
      FirstSightings(PricedTimes(rows, mk) + (if AnyPriced(Holdings(rows).keys, Quote(mk, now)) then [now] else []))
  {
    ReplayKeyOrder(rows, mk);
    ReplayHoldings(rows, mk);
    var st := ReplayRows(rows, mk);
    RevalueKeyOrder(st.weekly, mk, st.balances, now, PricedTimes(rows, mk));
  }

  /** With no row stamped `now` and a coin priced at its week, the final re-valuation's entry is the last key. */
  lemma {:induction false} NowIsLastKey(rows: seq<Row>, mk: Market, now: DateTime)
    requires AnyPriced(Holdings(rows).keys, Quote(mk, now))
    requires forall i :: 0 <= i < |rows| ==> rows[i].when != now
    ensures |PopulateBalances(rows, mk, now).weekly.keys| > 0
    ensures PopulateBalances(rows, mk, now).weekly.keys[|PopulateBalances(rows, mk, now).weekly.keys| - 1] == now
  {
    var st := ReplayRows(rows, mk);
    ReplayHoldings(rows, mk);
    ValuationKeysAreRowTimes(rows, mk);
    assert now !in st.weekly.m;
  }

  /** After the final re-valuation the keys are the row timestamps plus possibly `now`. */
  lemma PopulatedValuationKeys(rows: seq<Row>, mk: Market, now: DateTime)
    ensures forall t :: t in PopulateBalances(rows, mk, now).weekly.m ==>
      t == now || exists i :: 0 <= i < |rows| && rows[i].when == t
  {
    ValuationKeysAreRowTimes(rows, mk);
  }

  /** Σ sign * amount over the rows whose symbol is `sym`. */
  function SignedFlow(rows: seq<Row>, sym: string): real
  {
    if |rows| == 0 then 0.0
    else (if Symbol(rows[0]) == sym then Sign(rows[0].kind) as real * rows[0].amount else 0.0)
         + SignedFlow(rows[1..], sym)
  }

  /** `sym` is the symbol of some row. */
  predicate Seen(rows: seq<Row>, sym: string)
  {
    exists i :: 0 <= i < |rows| && Symbol(rows[i]) == sym
  }

  /**
   Reference balance, read front to back: the unsigned amount of the coin's
   first row plus the signed amounts of all its later rows.
   */
  function ReferenceBalance(rows: seq<Row>, sym: string): real
    requires Seen(rows, sym)
  {
    if Symbol(rows[0]) == sym then rows[0].amount + SignedFlow(rows[1..], sym)
    else
      assert Seen(rows[1..], sym) by {
        var i :| 0 <= i < |rows| && Symbol(rows[i]) == sym;
        assert rows[1..][i - 1] == rows[i];
      }
      ReferenceBalance(rows[1..], sym)
  }

  lemma {:induction false} SignedFlowAppend(rows: seq<Row>, r: Row, sym: string)
    ensures SignedFlow(rows + [r], sym) ==
      SignedFlow(rows, sym) + (if Symbol(r) == sym then Sign(r.kind) as real * r.amount else 0.0)
  {
    if |rows| == 0 {
      assert [r][1..] == [];
    } else {
      assert (rows + [r])[1..] == rows[1..] + [r];
      SignedFlowAppend(rows[1..], r, sym);
    }
  }

  /** Appending a row moves the reference balance of an already seen coin by that row's signed amount. */
  lemma {:induction false} ReferenceBalanceAppend(rows: seq<Row>, r: Row, sym: string)
    requires Seen(rows, sym)
    ensures Seen(rows + [r], sym)
    ensures ReferenceBalance(rows + [r], sym) ==
      ReferenceBalance(rows, sym) + (if Symbol(r) == sym then Sign(r.kind) as real * r.amount else 0.0)
  {
    var i :| 0 <= i < |rows| && Symbol(rows[i]) == sym;
    assert (rows + [r])[i] == rows[i];
    assert (rows + [r])[1..] == rows[1..] + [r];
    if Symbol(rows[0]) == sym {
      SignedFlowAppend(rows[1..], r, sym);
    } else {
      assert rows[1..][i - 1] == rows[i];
      ReferenceBalanceAppend(rows[1..], r, sym);
    }
  }

  /** The first row of a coin not seen before fixes the reference balance at its unsigned amount. */
  lemma {:induction false} ReferenceBalanceFirst(rows: seq<Row>, r: Row)
    requires !Seen(rows, Symbol(r))
    ensures Seen(rows + [r], Symbol(r))
    ensures ReferenceBalance(rows + [r], Symbol(r)) == r.amount
  {
    assert (rows + [r])[|rows|] == r;
    if |rows| == 0 {
      assert [r][1..] == [];
    } else {
      assert (rows + [r])[1..] == rows[1..] + [r];
      assert !Seen(rows[1..], Symbol(r)) by {
        forall i | 0 <= i < |rows[1..]|
          ensures Symbol(rows[1..][i]) != Symbol(r)
        {
          assert rows[1..][i] == rows[i + 1];
        }
      }
      ReferenceBalanceFirst(rows[1..], r);
    }
  }

  /** A symbol is seen in a ledger extended by one row iff it was seen before or is that row's. */
  lemma SeenSnoc(rows: seq<Row>, r: Row, sym: string)
    ensures Seen(rows + [r], sym) <==> Seen(rows, sym) || Symbol(r) == sym
  {
    if Seen(rows + [r], sym) {
      var i :| 0 <= i < |rows + [r]| && Symbol((rows + [r])[i]) == sym;
      if i < |rows| {
        assert (rows + [r])[i] == rows[i];
      }
    }
    if Seen(rows, sym) {
      var i :| 0 <= i < |rows| && Symbol(rows[i]) == sym;
      assert (rows + [r])[i] == rows[i];
    }
    assert (rows + [r])[|rows|] == r;
  }

  /** The balance of one symbol after one more row, given that it matched the reference before. */
  lemma BalanceStep(before: Balances, rows: seq<Row>, r: Row, s: string)
    requires Valid(before)
    requires s in before.m <==> Seen(rows, s)
    requires s in before.m ==> before.m[s] == ReferenceBalance(rows, s)
    ensures var after := AddToBalances(before, Symbol(r), r.amount, Sign(r.kind));
      && (s in after.m <==> Seen(rows + [r], s))
      && (s in after.m ==> after.m[s] == ReferenceBalance(rows + [r], s))
  {
    SeenSnoc(rows, r, s);
    if Seen(rows, s) {
      ReferenceBalanceAppend(rows, r, s);
    } else if Symbol(r) == s {
      ReferenceBalanceFirst(rows, r);
    }
  }

  /**
   A symbol has a replayed balance exactly when the ledger names it, and that
   balance is the reference balance: first amount unsigned, later amounts signed.
   */
  lemma {:induction false} BalancesMatchReference(rows: seq<Row>, s: string)
    ensures s in Holdings(rows).m <==> Seen(rows, s)
    ensures s in Holdings(rows).m ==> Holdings(rows).m[s] == ReferenceBalance(rows, s)
  {
    if |rows| > 0 {
      var init := rows[..|rows| - 1];
      var r := rows[|rows| - 1];
      assert rows == init + [r];
      BalancesMatchReference(init, s);
      BalanceStep(Holdings(init), init, r, s);
    }
  }
}
