/**
 * The multi-year part: `multi_year_markets` runs `find_markets` once per
 * year into a dict keyed by year, and `_market_by_year` keeps the names
 * that occur often enough across the years' name lists.
 */
module Persistence {
  import opened Types
  import opened Seqs
  import opened Dicts
  import opened MarketExpander

  /** `time_series`: year -> (market codes, market names), in insertion order. */
  type TimeSeries = Dict<Year, Markets>

  /** `data[y] = self.find_markets(year=y, tMarket=tMarket)` for each `y` of `years` in turn. */
  function CollectYears(env: Env, seed: Name, tMarket: real, years: seq<Year>, data: TimeSeries): Result<TimeSeries>
    decreases |years|
  {
    if years == [] then Ok(data)
    else
      match FindMarkets(Query(env, years[0], tMarket), seed)
      case Err(e) => Err(e)
      case Ok(m) => CollectYears(env, seed, tMarket, years[1..], Put(data, years[0], m))
  }

  /** One year of the loop: a failed search ends the table with its error, a successful one is stored and the rest follow. */
  lemma CollectYearsStep(env: Env, seed: Name, tMarket: real, years: seq<Year>, k: nat, data: TimeSeries,
                         result: Result<Markets>)
    requires k < |years|
    requires result == FindMarkets(Query(env, years[k], tMarket), seed)
    ensures result.Err? ==> CollectYears(env, seed, tMarket, years[k..], data) == Err(result.error)
    ensures result.Ok? ==> CollectYears(env, seed, tMarket, years[k..], data) ==
                           CollectYears(env, seed, tMarket, years[k + 1..], Put(data, years[k], result.value))
  {
    assert years[k..][0] == years[k] && years[k..][1..] == years[k + 1..];
  }

  /**
   * The table `multi_year_markets` builds. An empty list of years fails
   * before any year is run: the opening message indexes `years[0]`.
   */
  function YearTable(env: Env, seed: Name, tMarket: real, years: seq<Year>): Result<TimeSeries>
  {
    if years == [] then Err(EmptyYears) else CollectYears(env, seed, tMarket, years, [])
  }

  lemma {:induction false} CollectYearsFacts(env: Env, seed: Name, tMarket: real, years: seq<Year>, data: TimeSeries)
    requires Keyed(data)
    requires forall i :: 0 <= i < |data| ==> FindMarkets(Query(env, data[i].0, tMarket), seed) == Ok(data[i].1)
    requires CollectYears(env, seed, tMarket, years, data).Ok?
    ensures var ts := CollectYears(env, seed, tMarket, years, data).value;
            && Keyed(ts)
            && (forall y :: y in Keys(ts) <==> y in Keys(data) || y in years)
            && forall i :: 0 <= i < |ts| ==> FindMarkets(Query(env, ts[i].0, tMarket), seed) == Ok(ts[i].1)
    decreases |years|
  {
    if years != [] {
      var m := FindMarkets(Query(env, years[0], tMarket), seed).value;
      var data' := Put(data, years[0], m);
      PutKeyed(data, years[0], m);
      forall i | 0 <= i < |data'|
        ensures FindMarkets(Query(env, data'[i].0, tMarket), seed) == Ok(data'[i].1)
      {
        var y := data'[i].0;
        assert Keys(data')[i] == y;
        GetStored(data', y, data'[i].1);
        GetPut(data, years[0], m, y);
        if y != years[0] {
          assert y in Keys(data);
          var k :| 0 <= k < |data| && Keys(data)[k] == y;
          GetStored(data, y, data[k].1);
        }
      }
      CollectYearsFacts(env, seed, tMarket, years[1..], data');
    }
  }

  /**
   * The table has one entry per distinct year asked for, and each entry
   * holds that year's `find_markets` result; a year listed twice is run
   * twice and keeps its first position.
   */
  lemma YearTableFacts(env: Env, seed: Name, tMarket: real, years: seq<Year>)
    ensures YearTable(env, seed, tMarket, years).Err? <==>
            years == [] || exists i :: 0 <= i < |years| && FindMarkets(Query(env, years[i], tMarket), seed).Err?
    ensures YearTable(env, seed, tMarket, years).Ok? ==>
            var ts := YearTable(env, seed, tMarket, years).value;
            && Keyed(ts)
            && (forall y :: y in Keys(ts) <==> y in years)
            && forall i :: 0 <= i < |ts| ==> FindMarkets(Query(env, ts[i].0, tMarket), seed) == Ok(ts[i].1)
  {
    CollectYearsFails(env, seed, tMarket, years, []);
    if YearTable(env, seed, tMarket, years).Ok? {
      CollectYearsFacts(env, seed, tMarket, years, []);
    }
  }

  lemma {:induction false} CollectYearsFails(env: Env, seed: Name, tMarket: real, years: seq<Year>, data: TimeSeries)
    ensures CollectYears(env, seed, tMarket, years, data).Err? <==>
            exists i :: 0 <= i < |years| && FindMarkets(Query(env, years[i], tMarket), seed).Err?
    decreases |years|
  {
    if years != [] {
      match FindMarkets(Query(env, years[0], tMarket), seed)
      case Err(_) =>
      case Ok(m) =>
        CollectYearsFails(env, seed, tMarket, years[1..], Put(data, years[0], m));
        assert forall i :: 1 <= i < |years| ==> years[i] == years[1..][i - 1];
        if exists i :: 0 <= i < |years| && FindMarkets(Query(env, years[i], tMarket), seed).Err? {
          var i :| 0 <= i < |years| && FindMarkets(Query(env, years[i], tMarket), seed).Err?;
          assert years[1..][i - 1] == years[i];
        }
    }
  }

  /** `countries`: every year's name list, one after another in dict order. */
  function AllNames(ts: TimeSeries): seq<Name>
  {
    if ts == [] then [] else AllNames(ts[..|ts| - 1]) + ts[|ts| - 1].1.names
  }

  /** `threshold = years * tYear`, where `years` is the number of entries of the table. */
  function Threshold(ts: TimeSeries, tYear: real): real
  {
    |ts| as real * tYear
  }

  /** The names among `keys` whose count in `all` reaches `threshold`, in the order of `keys`. */
  function KeptNames(keys: seq<Name>, all: seq<Name>, threshold: real): (kept: seq<Name>)
    ensures forall n :: n in kept <==> n in keys && Count(all, n) as real >= threshold
    ensures NoDuplicates(keys) ==> NoDuplicates(kept)
  {
    if keys == [] then []
    else
      var n := |keys| - 1;
      assert keys == keys[..n] + [keys[n]];
      var kept := KeptNames(keys[..n], all, threshold);
      if Count(all, keys[n]) as real >= threshold then kept + [keys[n]] else kept
  }

  /**
   * `_market_by_year` on a set time series: the names of the `Counter` of
   * all names (in first-seen order) whose count reaches the threshold.
   */
  function Persistent(ts: TimeSeries, tYear: real): seq<Name>
  {
    var all := AllNames(ts);
    KeptNames(Distinct(all), all, Threshold(ts, tYear))
  }

  lemma {:induction false} AllNamesMember(ts: TimeSeries, n: Name)
    ensures n in AllNames(ts) <==> exists i :: 0 <= i < |ts| && n in ts[i].1.names
  {
    if ts != [] {
      var k := |ts| - 1;
      AllNamesMember(ts[..k], n);
      if exists i :: 0 <= i < |ts| && n in ts[i].1.names {
        var i :| 0 <= i < |ts| && n in ts[i].1.names;
        if i < k {
          assert ts[..k][i] == ts[i];
        }
      }
    }
  }

  /**
   * A name is kept exactly when its count across all the years' lists is at
   * least `len(time_series) * tYear`; the kept names are distinct and each
   * occurs in some year's list.
   */
  lemma PersistentMeaning(ts: TimeSeries, tYear: real, n: Name)
    ensures NoDuplicates(Persistent(ts, tYear))
    ensures n in Persistent(ts, tYear) <==>
            n in AllNames(ts) && Count(AllNames(ts), n) as real >= Threshold(ts, tYear)
    ensures n in Persistent(ts, tYear) ==> exists i :: 0 <= i < |ts| && n in ts[i].1.names
  {
    AllNamesMember(ts, n);
  }

  /** The number of entries of the table whose name list contains `n`. */
  function YearsWith(ts: TimeSeries, n: Name): nat
  {
    if ts == [] then 0
    else YearsWith(ts[..|ts| - 1], n) + (if n in ts[|ts| - 1].1.names then 1 else 0)
  }

  /**
   * The count `_market_by_year` compares is of occurrences, not of years: it
   * is at least the number of years listing the name, and equal to it when
   * no year lists a name twice.
   */
  lemma {:induction false} CountCoversYears(ts: TimeSeries, n: Name)
    ensures Count(AllNames(ts), n) >= YearsWith(ts, n)
    ensures (forall i :: 0 <= i < |ts| ==> NoDuplicates(ts[i].1.names)) ==>
            Count(AllNames(ts), n) == YearsWith(ts, n)
  {
    if ts != [] {
      var k := |ts| - 1;
      CountCoversYears(ts[..k], n);
      CountAppend(AllNames(ts[..k]), ts[k].1.names, n);
      if n in ts[k].1.names && NoDuplicates(ts[k].1.names) {
        CountOfDistinct(ts[k].1.names, n);
      }
      assert forall i :: 0 <= i < k ==> ts[..k][i] == ts[i];
    }
  }

  /** A name listed in every year of a non-empty table is kept for any `tYear <= 1`. */
  lemma KeptWhenEveryYear(ts: TimeSeries, tYear: real, n: Name)
    requires |ts| > 0 && tYear <= 1.0
    requires forall i :: 0 <= i < |ts| ==> n in ts[i].1.names
    ensures n in Persistent(ts, tYear)
  {
    OccursEveryYear(ts, n);
    ReachesThreshold(Count(AllNames(ts), n), ts, tYear);
    PersistentMeaning(ts, tYear, n);
  }

  lemma OccursEveryYear(ts: TimeSeries, n: Name)
    requires |ts| > 0
    requires forall i :: 0 <= i < |ts| ==> n in ts[i].1.names
    ensures n in AllNames(ts) && Count(AllNames(ts), n) >= |ts|
  {
    EveryYear(ts, n);
    CountCoversYears(ts, n);
    AllNamesMember(ts, n);
    assert n in ts[0].1.names;
  }

  lemma ReachesThreshold(c: nat, ts: TimeSeries, tYear: real)
    requires c >= |ts| && tYear <= 1.0
    ensures c as real >= Threshold(ts, tYear)
  {
  }

  lemma {:induction false} EveryYear(ts: TimeSeries, n: Name)
    requires forall i :: 0 <= i < |ts| ==> n in ts[i].1.names
    ensures YearsWith(ts, n) == |ts|
  {
    if ts != [] {
      var k := |ts| - 1;
      assert forall i :: 0 <= i < k ==> ts[..k][i] == ts[i];
      EveryYear(ts[..k], n);
    }
  }

  /** A name listed in no year is never kept. */
  lemma NeverKeptWhenAbsent(ts: TimeSeries, tYear: real, n: Name)
    requires forall i :: 0 <= i < |ts| ==> n !in ts[i].1.names
    ensures n !in Persistent(ts, tYear)
  {
    PersistentMeaning(ts, tYear, n);
  }
}
