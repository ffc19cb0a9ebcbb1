/**
 The fetch-once price caches of the market-data client.

 Each coin id has at most one aggregated weekly table and at most one spot
 price cached; a miss fetches (from the `Providers`), stores and bumps
 `rateCounter`, a hit answers from the cache. The HTTP calls themselves are
 replaced by the two provider functions, which are total.
 */
module PriceOracle {
  import opened Calendar
  import opened PriceAggregation

  /** The outbound collaborators: a coin's full price history, and its current spot price. */
  datatype Providers = Providers(history: string -> seq<Sample>, spot: string -> real)

  /** Cache state: weekly tables per coin, spot prices per coin, and the count of outbound fetches. */
  datatype Oracle = Oracle(weekly: map<string, PriceTable>, current: map<string, real>, rateCounter: nat)

  /** A client as constructed: empty caches, no fetch made. */
  const Fresh: Oracle := Oracle(map[], map[], 0)

  /** The weekly price function the caches stand for: aggregate the coin's history, look up the week start. */
  function HistoricalPrices(prov: Providers): (string, int) -> real
  {
    (id: string, week: int) => LookupPrice(AggregateWeekly(prov.history(id)), week)
  }

  /** Every cached entry is what a fresh fetch from `prov` would produce. */
  ghost predicate Coherent(o: Oracle, prov: Providers)
  {
    && (forall id :: id in o.weekly ==> o.weekly[id] == AggregateWeekly(prov.history(id)))
    && (forall id :: id in o.current ==> o.current[id] == prov.spot(id))
  }

  /** The fetch counter equals the number of cached entries: one fetch per coin per cache, never more. */
  predicate OneFetchPerEntry(o: Oracle)
  {
    o.rateCounter == |o.weekly.Keys| + |o.current.Keys|
  }

  /**
   `get_token_weekly_price`: on the first request for `id` the history is
   fetched and aggregated once; the answer is the entry for the week start of
   `t`, or 0 when that week has none.
   */
  function WeeklyPrice(o: Oracle, prov: Providers, id: string, t: DateTime): (res: (Oracle, real))
    ensures res.0.rateCounter == if id in o.weekly then o.rateCounter else o.rateCounter + 1
    ensures res.0.weekly.Keys == o.weekly.Keys + {id}
    ensures forall k :: k in o.weekly ==> res.0.weekly[k] == o.weekly[k]
    ensures res.0.current == o.current
    ensures res.1 == LookupPrice(res.0.weekly[id], StartOfWeek(t))
    ensures id !in o.weekly ==> res.0.weekly[id] == AggregateWeekly(prov.history(id))
  {
    if id in o.weekly then (o, LookupPrice(o.weekly[id], StartOfWeek(t)))
    else
      var table := AggregateWeekly(prov.history(id));
      var o' := o.(weekly := o.weekly[id := table], rateCounter := o.rateCounter + 1);
      assert o'.weekly.Keys == o.weekly.Keys + {id};
      (o', LookupPrice(table, StartOfWeek(t)))
  }

  /** `get_token_current_price`: the spot price is fetched on the first request for `id` and cached for good. */
  function CurrentPrice(o: Oracle, prov: Providers, id: string): (res: (Oracle, real))
    ensures res.0.rateCounter == if id in o.current then o.rateCounter else o.rateCounter + 1
    ensures res.0.current.Keys == o.current.Keys + {id}
    ensures forall k :: k in o.current ==> res.0.current[k] == o.current[k]
    ensures res.0.weekly == o.weekly
    ensures res.1 == res.0.current[id]
    ensures id !in o.current ==> res.1 == prov.spot(id)
  {
    if id in o.current then (o, o.current[id])
    else
      var o' := o.(current := o.current[id := prov.spot(id)], rateCounter := o.rateCounter + 1);
      assert o'.current.Keys == o.current.Keys + {id};
      (o', prov.spot(id))
  }

  /** A coherent cache stays coherent and answers exactly the historical price: caching is transparent. */
  lemma WeeklyPriceTransparent(o: Oracle, prov: Providers, id: string, t: DateTime)
    requires Coherent(o, prov)
    ensures Coherent(WeeklyPrice(o, prov, id, t).0, prov)
    ensures WeeklyPrice(o, prov, id, t).1 == HistoricalPrices(prov)(id, StartOfWeek(t))
  {
  }

  /** A coherent cache stays coherent and answers exactly the provider's spot price. */
  lemma CurrentPriceTransparent(o: Oracle, prov: Providers, id: string)
    requires Coherent(o, prov)
    ensures Coherent(CurrentPrice(o, prov, id).0, prov)
    ensures CurrentPrice(o, prov, id).1 == prov.spot(id)
  {
  }

  /**
   Each request keeps the counter equal to the number of cached entries, so
   from a fresh client every coin costs at most one history fetch and one spot
   fetch, however often it is asked for.
   */
  lemma RequestsKeepOneFetchPerEntry(o: Oracle, prov: Providers, id: string, t: DateTime)
    requires OneFetchPerEntry(o)
    ensures OneFetchPerEntry(WeeklyPrice(o, prov, id, t).0)
    ensures OneFetchPerEntry(CurrentPrice(o, prov, id).0)
  {
    var w := WeeklyPrice(o, prov, id, t).0;
    if id !in o.weekly {
      assert |w.weekly.Keys| == |o.weekly.Keys| + 1;
    }
    var c := CurrentPrice(o, prov, id).0;
    if id !in o.current {
      assert |c.current.Keys| == |o.current.Keys| + 1;
    }
  }

  /** A fresh client is coherent with any providers and has made no fetch. */
  lemma FreshIsCoherent(prov: Providers)
    ensures Coherent(Fresh, prov)
    ensures OneFetchPerEntry(Fresh)
  {
  }

  /** Asking twice for the same coin and week fetches once and answers the same both times. */
  lemma RepeatedWeeklyLookup(o: Oracle, prov: Providers, id: string, t: DateTime)
    ensures var (o1, p1) := WeeklyPrice(o, prov, id, t);
            var (o2, p2) := WeeklyPrice(o1, prov, id, t);
            o2 == o1 && p2 == p1
  {
  }

  /** Asking twice for the same spot price fetches once and answers the same both times. */
  lemma RepeatedSpotLookup(o: Oracle, prov: Providers, id: string)
    ensures var (o1, p1) := CurrentPrice(o, prov, id);
            var (o2, p2) := CurrentPrice(o1, prov, id);
            o2 == o1 && p2 == p1
  {
  }

  /**
   The client object: the cache maps and the counter as mutable fields, each
   request delegating to the pure transition above.
   */
  class CoingeckoApi {
    var state: Oracle
    const providers: Providers

    constructor (prov: Providers)
      ensures state == Fresh && providers == prov
    {
      state := Fresh;
      providers := prov;
    }

    method GetTokenWeeklyPrice(id: string, t: DateTime) returns (price: real)
      modifies this
      ensures (state, price) == WeeklyPrice(old(state), providers, id, t)
    {
      var res := WeeklyPrice(state, providers, id, t);
      state := res.0;
      price := res.1;
    }

    method GetTokenCurrentPrice(id: string) returns (price: real)
      modifies this
      ensures (state, price) == CurrentPrice(old(state), providers, id)
    {
      var res := CurrentPrice(state, providers, id);
      state := res.0;
      price := res.1;
    }
  }
}
