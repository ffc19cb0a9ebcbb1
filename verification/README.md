# Crypto portfolio parser: a Dafny model

This project models the two bookkeeping layers of a small crypto-portfolio tool.

**The market-data client** (`coingecko_api.py`):
- Monday-aligned week bucketing.
- The per-week running-mean aggregator that turns a coin's price history into a weekly price table.
- Normalisation of ledger currency labels, and resolution of a label to a coin id through an override table and the coin catalog.
- The fetch-once caches for weekly tables and spot prices, with their fetch counter `rate_counter`.

**The portfolio parser** (`portfolio-parser.py`):
- The ledger replay: per-coin balances, and the portfolio re-valuation after every row and once more at "now".
- The earned / donated / invested books, per coin and per fiscal year.
- The current valuation at spot prices and the year-end roll-up of the weekly valuation.
- The profit/loss figures.

Modelling choices:
- A ledger is a `seq<Row>`. Prices come in a `Market`: the coin catalog, a weekly price function `(coin id, week-start day) -> real` and a spot price function.
- "now" is a parameter.
- An instant is a `DateTime(year, day, second)`. `day` counts days since 1970-01-01, which is a Thursday, so `Weekday(d) = (d + 3) % 7`.
- Python dicts are insertion-ordered and the code depends on that, so they are `OMap`s: a key sequence plus a map.
- Amounts and prices are `real`.
- Where the program would raise (a missing fiscal year, a division by zero, `next` on an empty dict), the model returns a `Failure` instead.

The model follows the code, including where it surprises a reader:
- **The running mean drops a sample.** The aggregator passes the count of samples already folded to the mean recurrence. So the second sample of a week overwrites the first. A week of samples x1..xk settles to x1 when k = 1, and to mean(x2..xk) otherwise (`PriceAggregation.LastRunSettles`, `PriceAggregation.RunningMeanDropsFirstSample`).
- **The override table sees the raw argument.** `get_name_from_map` is given the argument before normalisation. So the raw label "ERD" is not overridden; its normalised form "erd" is (`Symbols.RawLabelBypassesOverride`). The ledger always resolves normalised symbols, so there the override applies.
- **The first sighting ignores the sign.** A coin's first row sets its balance to the amount, even for a sale.
- **The weekly valuation is keyed by the raw row timestamp**, not by the week start. Rows with equal timestamps accumulate into one entry.
- **The year roll-up overwrites.** Each year keeps the weekly valuation of its last key; it does not sum.
- **The final re-valuation can break the yearly P/L.** The re-valuation at "now" can create a year that no ledger row falls in. Both yearly P/L figures then fail with a KeyError (`PortfolioParser.UnbookedYearBreaksYearlyPL`).
- **"Invested" is not the cost field.** It is sign × amount × weekly price. `Costs/Proceeds` is only compared with 0.

Files:
- `calendar.dfy`: week bucketing.
- `running_mean.dfy`: the mean recurrence.
- `price_aggregation.dfy`: the weekly aggregator.
- `symbols.dfy`: label normalisation and coin-id resolution.
- `price_oracle.dfy`: the caches. The class `CoingeckoApi` has one mutable field, `state`, and its methods wrap `WeeklyPrice` and `CurrentPrice`. It has no row in the table because its methods' contracts use `old()`; their content is carried by the pure functions.
- `ordered_maps.dfy`: insertion-ordered dicts.
- `ledger.dfy`: balances and weekly valuation.
- `accumulators.dfy`: the earned / donated / invested books.
- `derivations.dfy`: valuation, roll-up and P/L.
- `portfolio_parser.dfy`: the constructor, end to end.

## Model

| member | source | states |
|---|---|---|
| Calendar.Weekday | coingecko_api.py:17 | The weekday of a day number is in 0..6, Monday = 0. |
| Calendar.MidnightAligned | coingecko_api.py:11-12 | The aligned instant is a midnight of the same year. For a valid instant it is at or before it and less than one day earlier. |
| Calendar.MidnightAlignedUnique | coingecko_api.py:11-12 | Alignment is the floor to whole days: the only midnight within the day before an instant is its aligned midnight, and aligning a midnight gives it back. |
| Calendar.StartOfWeek | coingecko_api.py:15-17 | The week start is a Monday, and it lies within the six days up to the instant's day. |
| Calendar.EndOfWeek | coingecko_api.py:20-22 | The week end is the week start plus seven days: the next Monday, strictly after the instant's day. |
| Calendar.StartOfWeekUnique | coingecko_api.py:15-17 | The week start is the only Monday m with m <= day < m + 7. |
| Calendar.SameWeekIff | coingecko_api.py:15-22 | Two instants share a week start iff the second lies in the first one's seven-day window. |
| Calendar.StartOfWeekIdempotent | coingecko_api.py:15-17 | The week start of a week's Monday is that Monday. |
| Calendar.StartOfWeekNeverZero | coingecko_api.py:76-80 | No week start is day 0. So the aggregator's initial "previous week" of 0 never matches a real week. |
| RunningMean.IterativeMean | coingecko_api.py:25-28 | With n = 0 or n = 1 the recurrence returns the new sample itself. |
| RunningMean.IterativeMeanExtends | coingecko_api.py:25-28 | Given the count including the new sample and the mean of the earlier samples, the recurrence yields the arithmetic mean of all of them. |
| PriceAggregation.FoldRun | coingecko_api.py:74-87 | A run of k samples in one week, entered from another week, leaves n = k. It stores the settled value: x1 for k = 1, mean(x2..xk) otherwise. It changes no other entry. |
| PriceAggregation.FoldAvoids | coingecko_api.py:77-87 | Samples outside a week leave that week's entry, present or absent, unchanged. |
| PriceAggregation.AggregateKeys | coingecko_api.py:77-87 | The table's keys are exactly the week starts of the samples; an empty history gives an empty table. |
| PriceAggregation.AggregateWeeklySpec | coingecko_api.py:74-87 | The stored table in full. A week has an entry iff some sample falls in it. The entry is the settled value of that week's last run: a maximal block of samples in the week, after which the history never returns to it. |
| PriceAggregation.LastRunSettles | coingecko_api.py:74-87 | A week revisited after another week keeps only the settled value of its last run, and the lookup returns that value. |
| PriceAggregation.UnobservedWeekIsZero | coingecko_api.py:64-66 | A week in which no sample falls is priced 0. |
| PriceAggregation.RunningMeanDropsFirstSample | coingecko_api.py:85-87 | Samples 1.0 then 3.0 in one week are stored as 3.0, while their mean is 2.0. |
| Symbols.LowerChar | coingecko_api.py:39 | ASCII lower-casing maps A-Z to a-z and leaves every other character alone. |
| Symbols.BeforeParen | coingecko_api.py:39 | The result is the longest prefix without "("; if it is shorter than the input, the next character is "(". |
| Symbols.StripLeftSpec | coingecko_api.py:39 | Left stripping drops only leading whitespace: the result is a suffix that is empty or starts with a non-space. |
| Symbols.StripRightSpec | coingecko_api.py:39 | Right stripping drops only trailing whitespace: the result is a prefix that is empty or ends with a non-space. |
| Symbols.NormalizeSpec | coingecko_api.py:38-41 | Normalisation in full. The result holds only lower-case letters and digits. It is the lower-cased letters and digits of the text before the first "(", so trimming never matters and neither does anything after the parenthesis. It is its own normal form. |
| Symbols.NormalizeIsNormal | coingecko_api.py:38-41 | A normalised label holds only lower-case ASCII letters and digits. |
| Symbols.NormalizeIdempotent | coingecko_api.py:38-41 | Normalising twice is normalising once. |
| Symbols.NormalIsFixed | coingecko_api.py:38-41 | A string of lower-case letters and digits normalises to itself. |
| Symbols.NormalizeAnnotated | coingecko_api.py:38-41 | "ERD (Elrond)" normalises to "erd". |
| Symbols.NameFromMap | coingecko_api.py:31-35 | The override table maps "erd" to "elrond", and every other name to the not-found sentinel. |
| Symbols.ScanCatalogFirstMatch | coingecko_api.py:104-107 | The catalog scan returns the id of the first entry whose lower-cased symbol matches, or the sentinel if none does. |
| Symbols.ResolveSpec | coingecko_api.py:98-107 | "erd" resolves to "elrond" whatever the catalog holds. Any other name resolves to the id of the first entry matching its normalised form, or to the sentinel. |
| Symbols.AliasResolvesThroughNormalForm | coingecko_api.py:98-103 | Any label that normalises to "erd", once passed in normalised, resolves to "elrond" whatever the catalog holds. |
| Symbols.RawLabelBypassesOverride | coingecko_api.py:100-103 | The raw label "ERD" misses the override and is not found in an empty catalog; its normalised form resolves to "elrond". |
| PriceOracle.WeeklyPrice | coingecko_api.py:58-66 | A cache miss fetches and aggregates once and adds 1 to the counter. A hit changes nothing. Other coins' tables and the spot cache are kept. The answer is the table's entry for the week start, or 0. |
| PriceOracle.CurrentPrice | coingecko_api.py:89-96 | A miss stores the provider's spot price and adds 1 to the counter. A hit answers from the cache. The weekly cache is kept. |
| PriceOracle.WeeklyPriceTransparent | coingecko_api.py:58-87 | A coherent cache stays coherent and answers exactly the aggregated historical price. |
| PriceOracle.CurrentPriceTransparent | coingecko_api.py:89-96 | A coherent cache stays coherent and answers exactly the provider's spot price. |
| PriceOracle.RequestsKeepOneFetchPerEntry | coingecko_api.py:58-96 | The counter stays equal to the number of cached entries: one history fetch and one spot fetch per coin at most. |
| PriceOracle.FreshIsCoherent | coingecko_api.py:44-50 | A new client is coherent with any providers and has made no fetch. |
| PriceOracle.RepeatedWeeklyLookup | coingecko_api.py:58-66 | Asking twice for the same coin and week leaves the second call without effect and returns the same price. |
| PriceOracle.RepeatedSpotLookup | coingecko_api.py:89-96 | Asking twice for the same spot price leaves the second call without effect and returns the same price. |
| OrderedMaps.Put | portfolio-parser.py:46 | Assigning a key keeps the ordered dict well formed. |
| OrderedMaps.AddToSum | portfolio-parser.py:113 | Adding d to one key's value adds d to the sum of all values. |
| OrderedMaps.FirstSightingsSpec | portfolio-parser.py:45-46 | The first sightings of a sequence list each of its elements exactly once. |
| Ledger.Sign | portfolio-parser.py:56 | The sign is +1 exactly for type "BUY" and -1 for every other type. |
| Ledger.AddToBalances | portfolio-parser.py:44-49 | An unseen coin gets the amount, ignoring the sign, at the end of the key order. A seen coin moves by sign × amount. Every other coin is unchanged. |
| Ledger.ValueIntoClosedForm | portfolio-parser.py:35-42 | The coin loop adds the summed balance × price of the priced coins to the entry. It creates the entry only if some coin is priced, and otherwise changes nothing. |
| Ledger.AddToWeeklyValuation | portfolio-parser.py:34-42 | If some held coin is priced, the entry keyed by the timestamp grows by the priced value of the holdings. That entry starts from its old value or 0, so equal timestamps accumulate. Otherwise the valuation is unchanged. |
| Ledger.ReplayRowsSpec | portfolio-parser.py:34-58 | The replay in full. Its balances are the `add_to_balances` fold of the rows. The weekly valuation has an entry at t iff some row stamped t left holdings with a coin priced at the week of t. The entry is the sum, over the rows stamped t, of the priced value of the holdings right after each. The keys are the first sightings of `PricedTimes`: the timestamps of the rows that left a priced coin, in ledger order. |
| Ledger.ReplayHoldings | portfolio-parser.py:51-58 | The balances the replay builds do not depend on prices: they are the `add_to_balances` fold of the rows. |
| Ledger.PopulateBalances | portfolio-parser.py:51-59 | The final re-valuation at "now" leaves the balances as the rows left them. |
| Ledger.BalanceKeyOrder | portfolio-parser.py:51-58 | The balances list the coins in the order of their first row. |
| Ledger.ReplayKeyOrder | portfolio-parser.py:34-42 | The weekly keys are in dict insertion order: each timestamp appears once, at the position of the first row stamped with it that left a priced coin. |
| Ledger.PopulatedKeyOrder | portfolio-parser.py:51-59 | After the final re-valuation the keys are those of the replay, followed by "now" when some held coin is priced at its week and "now" is not already a key. |
| Ledger.NowIsLastKey | portfolio-parser.py:59 | With no row stamped "now" and a held coin priced in the current week, "now" is the last weekly key. |
| Derivations.LastKeyClosesItsYear | portfolio-parser.py:127-130 | The year of the last weekly key rolls up to exactly that key's valuation. |
| Ledger.PopulatedValuationKeys | portfolio-parser.py:51-59 | Every weekly-valuation key is a row timestamp or "now". |
| Ledger.BalancesMatchReference | portfolio-parser.py:51-58 | A coin has a balance exactly when the ledger names it. The balance is the coin's first amount, unsigned, plus the signed amounts of its later rows. |
| Accumulators.FlowOf | portfolio-parser.py:98-107 | A row is earned iff its cost is 0 and it is a buy, donated iff its cost is 0 and it is not, and invested iff its cost is nonzero. |
| Accumulators.Contribution | portfolio-parser.py:98-107 | Earned and donated rows book amount × price; invested rows book sign × amount × price. |
| Accumulators.PostKeepsSynced | portfolio-parser.py:87-107 | A booking keeps the three columns well formed, with the same keys in the same order. |
| Accumulators.PostMovesOneSum | portfolio-parser.py:87-107 | A booking moves the sum of its own column by the booked value and leaves the other two sums unchanged. |
| Accumulators.PostMovesOneEntry | portfolio-parser.py:87-107 | A booking changes one entry only: its key in its own column. |
| Accumulators.EarnedAmountsSpec | portfolio-parser.py:79-107 | The booking pass in full. Both sets of books stay well formed and keyed alike. A coin has entries iff some row names it, and a fiscal year iff some row falls in it. Each entry is the total contribution of its rows in that flow. |
| Accumulators.SumsMatchReference | portfolio-parser.py:112-125 | The earned, donated and invested sums, per coin and per year alike, equal the totals of the rows' contributions in that flow. |
| Accumulators.PerCoinAndPerYearAgree | portfolio-parser.py:87-107 | The per-coin and per-year books sum to the same total in each flow. |
| Accumulators.PerCoinKeys | portfolio-parser.py:87-90 | A coin has per-coin entries exactly when some row names it. |
| Accumulators.PerCoinMatchesReference | portfolio-parser.py:96-107 | Each per-coin entry is the total contribution of that coin's rows in that flow. |
| Accumulators.PerYearKeys | portfolio-parser.py:85-94 | A fiscal year has entries exactly when some row falls in it. |
| Accumulators.PerYearMatchesReference | portfolio-parser.py:96-107 | Each per-year entry is the total contribution of that year's rows in that flow. |
| Derivations.ValueHoldingsSpec | portfolio-parser.py:62-65 | Over distinct coins the valuation lists those coins in order, each at balance × spot price. |
| Derivations.PopulateValuationSpec | portfolio-parser.py:62-65 | The current valuation has exactly the balances' coins, in their order, each worth its balance at the spot price of its resolved id. |
| Derivations.ValueHoldingsSum | portfolio-parser.py:62-65 | Over distinct coins the valuation sums to the reference worth: the sum of balance × spot price over the coins. |
| Derivations.CurrentValuationSumSpec | portfolio-parser.py:70-71 | After both passes the current valuation sum is the worth of the holdings at spot prices less the total value of the donated rows. |
| Derivations.LastOfYear | portfolio-parser.py:128-130 | The result is the position of the last weekly key that falls in the year. |
| Derivations.RollUpKeepsLastOfYear | portfolio-parser.py:127-130 | A year is rolled up iff some weekly key falls in it. It holds the valuation of the last such key. |
| Derivations.RollUpYearOrder | portfolio-parser.py:127-130 | The rolled-up years are in order of first appearance among the weekly keys. |
| Derivations.PopulateYearlyValuationSpec | portfolio-parser.py:127-130 | The roll-up in full. It lists the years of the weekly keys in order of first appearance. A year is present iff some weekly key falls in it, and it holds the valuation of the last such key. |
| Derivations.RatioLessOne | portfolio-parser.py:146 | a / b - 1 succeeds exactly when b is nonzero, and then v satisfies (v + 1) × b = a. |
| Derivations.YearlyPLSucceedsIff | portfolio-parser.py:142-154 | The yearly P/L succeeds iff every rolled-up year is in the invested and earned books with a nonzero denominator. |
| Derivations.YearlyPLValues | portfolio-parser.py:142-154 | On success the P/L lists the rolled-up years in order. Each value is valuation / (invested + earned) - 1, or (valuation - earned) / invested - 1 without earnings. |
| Derivations.YearlyPLSpec | portfolio-parser.py:142-147 | `get_yearly_pl` in full. It succeeds iff every rolled-up year is in the invested and earned books with invested + earned nonzero. It then lists the rolled-up years in order, each at valuation / (invested + earned) - 1. |
| Derivations.YearlyPLWithoutEarningsSpec | portfolio-parser.py:149-154 | `get_yearly_pl_without_earnings` in full. It succeeds iff every rolled-up year is in the invested and earned books with invested nonzero. It then lists the rolled-up years in order, each at (valuation - earned) / invested - 1. |
| Derivations.UnbookedYearFails | portfolio-parser.py:142-154 | If a rolled-up year has no ledger row, both yearly P/L figures fail, because the per-year books never opened that year. |
| Derivations.TotalPL | portfolio-parser.py:162-164 | The total P/L succeeds iff invested + earned is nonzero. It is then (valuation sum - donated sum) / (invested + earned) - 1. |
| Derivations.CagrOperands | portfolio-parser.py:166-171 | CAGR fails on an empty roll-up. Otherwise it succeeds iff the first year's valuation is nonzero and the first year is not the current one. The base is then the current valuation sum over the starting valuation, and the exponent is 1 / years passed. |
| PortfolioParser.BuildWellFormed | portfolio-parser.py:15-32 | The constructor leaves every dict well formed, and the three columns of each set of books in lockstep. |
| PortfolioParser.HoldingsAreReferenceBalances | portfolio-parser.py:51-58 | After construction a coin is held exactly when the ledger names it, at its reference balance, whatever the prices. |
| PortfolioParser.SumsAreReferenceTotals | portfolio-parser.py:112-125 | After construction each flow sum equals the reference total. |
| PortfolioParser.CurrentYearRolledUp | portfolio-parser.py:59 | If some held coin is priced in the current week, the final re-valuation makes "now" a weekly key, so the roll-up includes the current year. |
| PortfolioParser.CurrentYearIsNowValuation | portfolio-parser.py:59 | With no row stamped "now" and a held coin priced in the current week, the current year's roll-up is the valuation at "now". |
| PortfolioParser.UnbookedYearBreaksYearlyPL | portfolio-parser.py:142-154 | After construction, a rolled-up year in which no row falls makes both yearly P/L figures fail. |

## Left out

- HTTP calls, JSON payloads and `vs_currency`. Price histories, spot prices and the coin catalog are parameters. Fetches are total, so a failed fetch that leaves an empty table cached is not modelled.
- Caching of the coin catalog in `get_coins_list`. The catalog is a fixed value of the `Market`.
- Epoch seconds and local-timezone conversion. Instants are day numbers with the calendar year supplied alongside; converting a day number to a year is not modelled.
- CSV loading, date parsing and reading the clock. The ledger and "now" are parameters.
- Floating-point rounding. All amounts are exact reals.
- Unicode behaviour of `lower()`, `strip()` and the regex. Only ASCII lower-casing and ASCII whitespace are modelled.
- `show_formatted`, printing, plotting and the script entry point: output only.
- `get_yoy_growth` computes a dict but never returns it, so it has no result to model.
- The trivial getters that return a dict unchanged (`get_current_valuation`, `get_earned_amounts` and the like).
- CagrOperands: stops before `math.pow`. Its fractional power and the `ValueError` on a negative base are not modelled.
- The link from the caches to the replay. The replay takes the weekly and spot price functions as given. `PriceOracle` proves that cached lookups return exactly the aggregated history and the provider's spot price, which is what those functions stand for.
