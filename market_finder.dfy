/**
 * `ComtradeMarketFinder`: the object that holds the production table, the
 * code directory and the configuration, runs the expansion for one year or
 * for many, and stores the multi-year results in its fields.
 */
module MarketFinder {
  import opened Types
  import opened Seqs
  import opened Dicts
  import opened CodeDirectory
  import opened Production
  import opened ShareFilter
  import opened MarketExpander
  import opened Persistence

  class ComtradeMarketFinder {
    var production: seq<ProductionRow>
    var directory: Directory
    /** Stands for the remote trade-flow service queried for the configured commodity codes. */
    var trade: TradeSource
    var year: Year
    var tMarket: real
    var market: Name
    var tYear: real
    var years: seq<Year>
    /** `time_series`; None until `MultiYearMarkets` succeeds. */
    var timeSeries: Option<TimeSeries>
    /** `tMarket_tYear_suppliers`; None until `MultiYearMarkets` succeeds. */
    var suppliers: Option<seq<Name>>

    constructor (production: seq<ProductionRow>, areas: seq<Area>, trade: TradeSource,
                 year: Year, tMarket: real, market: Name, tYear: real, years: seq<Year>)
      ensures this.production == production && this.directory == BuildDirectory(areas)
      ensures this.trade == trade && this.year == year && this.tMarket == tMarket
      ensures this.market == market && this.tYear == tYear && this.years == years
      ensures this.timeSeries == None && this.suppliers == None
    {
      this.production := production;
      this.directory := BuildDirectory(areas);
      this.trade := trade;
      this.year := year;
      this.tMarket := tMarket;
      this.market := market;
      this.tYear := tYear;
      this.years := years;
      this.timeSeries := None;
      this.suppliers := None;
    }

    /** The data the finder was built from, as the reference functions take it. */
    function Env(): Env
      reads this`production, this`directory, this`trade
    {
      MarketExpander.Env(production, directory, trade)
    }

    /**
     * `find_markets(year, tMarket)`: round 1 from the configured seed market,
     * then the rounds of the `while` loop, then the names of the markets found.
     */
    method FindMarkets(year: Year, tMarket: real) returns (r: Result<Markets>)
      ensures r == MarketExpander.FindMarkets(Query(Env(), year, tMarket), market)
    {
      var q := Query(Env(), year, tMarket);
      var initial := CodeOf(directory, market);
      if initial.Err? {
        return Err(initial.error);
      }
      var initialCode := initial.value;
      var foundMarkets := [initialCode];
      var own := ProductionOf(production, directory, initialCode, year);
      if own.Err? {
        return Err(own.error);
      }
      var iterationCodes := Admitted(q, initialCode, own.value);
      var checkedMarkets := [initialCode];
      foundMarkets := foundMarkets + iterationCodes;
      var firstTotal := TotalProduction(production, directory, iterationCodes, year);
      if firstTotal.Err? {
        return Err(firstTotal.error);
      }
      assert FirstRound(q, market) == Ok(Expansion(foundMarkets, checkedMarkets, iterationCodes, firstTotal.value, 1));
      var last := Rounds(q, foundMarkets, checkedMarkets, iterationCodes, firstTotal.value);
      if last.Err? {
        return Err(last.error);
      }
      var marketNames := Names(directory, last.value.found);
      if marketNames.Err? {
        return Err(marketNames.error);
      }
      return Ok(Markets(last.value.found, marketNames.value));
    }

    /**
     * The `while len(to_check) > 0 and i < stop_n` loop of `find_markets`,
     * from the lists round 1 leaves; each pass is one `OnePass`.
     */
    static method Rounds(q: Query, found: seq<Code>, checked: seq<Code>, frontier: seq<Code>, reference: real)
      returns (r: Result<Expansion>)
      ensures r == Expand(q, Expansion(found, checked, frontier, reference, 1))
    {
      var st := Expansion(found, checked, frontier, reference, 1);
      var toCheck := Without(st.found, st.checked);
      while |toCheck| > 0 && st.round < StopN
        invariant toCheck == Without(st.found, st.checked)
        invariant Expand(q, Expansion(found, checked, frontier, reference, 1)) == Expand(q, st)
        decreases StopN - st.round
      {
        var next := OnePass(q, st);
        if next.Err? {
          return Err(next.error);
        }
        ExpandStep(q, st, next.value);
        st := next.value;
        toCheck := Without(st.found, st.checked);
      }
      return Ok(st);
    }

    /**
     * One pass of that loop: the `for m in iteration_codes` scan, then
     * `extra_market_production += ...`, `iteration_codes = new_extras`,
     * `found_markets += new_extras` and `i += 1`.
     */
    static method OnePass(q: Query, st: Expansion) returns (r: Result<Expansion>)
      ensures r == Round(q, st)
    {
      var checkedMarkets, newExtras := CheckFrontier(q, st.reference, st.found, st.frontier, st.checked);
      RoundOf(q, st, Scan(checkedMarkets, newExtras));
      r := Extend(q, st, checkedMarkets, newExtras);
    }

    /**
     * The end of a pass: the production of `new_extras` is added to the
     * reference, and the new markets are found and become the next frontier.
     */
    static method Extend(q: Query, st: Expansion, checkedMarkets: seq<Code>, newExtras: seq<Code>)
      returns (r: Result<Expansion>)
      ensures r == Advance(q, st, Scan(checkedMarkets, newExtras))
    {
      var added := Total(q, newExtras);
      if added.Err? {
        return Err(added.error);
      }
      AdvanceOf(q, st, Scan(checkedMarkets, newExtras), added.value);
      return Ok(Expansion(st.found + newExtras, checkedMarkets, newExtras, st.reference + added.value, st.round + 1));
    }

    /**
     * The `for m in iteration_codes` scan: each market not yet checked is
     * marked checked and its admitted partners not yet found join `new_extras`.
     */
    static method CheckFrontier(q: Query, reference: real, found: seq<Code>, frontier: seq<Code>, checked: seq<Code>)
      returns (checkedMarkets: seq<Code>, newExtras: seq<Code>)
      ensures Scan(checkedMarkets, newExtras) == ScanFrontier(q, reference, found, frontier, checked, [])
    {
      checkedMarkets, newExtras := checked, [];
      var j := 0;
      while j < |frontier|
        invariant 0 <= j <= |frontier|
        invariant ScanFrontier(q, reference, found, frontier[j..], checkedMarkets, newExtras) ==
                  ScanFrontier(q, reference, found, frontier, checked, [])
      {
        var m := frontier[j];
        assert frontier[j..][1..] == frontier[j + 1..];
        ScanStep(q, reference, found, frontier[j..], checkedMarkets, newExtras);
        if m !in checkedMarkets {
          checkedMarkets := checkedMarkets + [m];
          var toAdd := Without(Admitted(q, m, reference), found + newExtras);
          newExtras := newExtras + toAdd;
        }
        j := j + 1;
      }
      assert frontier[j..] == [];
    }

    /**
     * `_market_by_year(tYear)`: None before a multi-year run; afterwards the
     * names whose count across all years' name lists reaches
     * `len(time_series) * tYear`, in first-seen order.
     */
    method MarketByYear(tYear: real) returns (keep: Option<seq<Name>>)
      ensures keep == if timeSeries.None? then None else Some(Persistent(timeSeries.value, tYear))
    {
      if timeSeries.None? {
        return None;
      }
      var ts := timeSeries.value;
      var countries := [];
      var k := 0;
      while k < |ts|
        invariant 0 <= k <= |ts|
        invariant countries == AllNames(ts[..k])
      {
        assert ts[..k + 1][..k] == ts[..k];
        countries := countries + ts[k].1.names;
        k := k + 1;
      }
      assert ts[..|ts|] == ts;
      var count := Distinct(countries);
      var threshold := Threshold(ts, tYear);
      var kept := [];
      var c := 0;
      while c < |count|
        invariant 0 <= c <= |count|
        invariant kept == KeptNames(count[..c], countries, threshold)
      {
        assert count[..c + 1][..c] == count[..c];
        if Count(countries, count[c]) as real >= threshold {
          kept := kept + [count[c]];
        }
        c := c + 1;
      }
      assert count[..|count|] == count;
      assert kept == Persistent(ts, tYear);
      return Some(kept);
    }

    /**
     * `multi_year_markets(years, tMarket, tYear)`: runs every year in turn;
     * only when all succeed are `time_series` and `tMarket_tYear_suppliers`
     * set. Any failure leaves both as they were.
     */
    method MultiYearMarkets(years: seq<Year>, tMarket: real, tYear: real) returns (outcome: Outcome)
      modifies this`timeSeries, this`suppliers
      ensures var table := YearTable(old(Env()), market, tMarket, years);
              && outcome == (if table.Ok? then Pass else Fail(table.error))
              && (table.Ok? ==> timeSeries == Some(table.value) &&
                                suppliers == Some(Persistent(table.value, tYear)))
              && (table.Err? ==> timeSeries == old(timeSeries) && suppliers == old(suppliers))
    {
      if |years| == 0 {
        return Fail(EmptyYears);
      }
      ghost var env := Env();
      var data: TimeSeries := [];
      var k := 0;
      while k < |years|
        invariant 0 <= k <= |years|
        invariant timeSeries == old(timeSeries) && suppliers == old(suppliers)
        invariant env == Env() == old(Env())
        invariant CollectYears(env, market, tMarket, years[k..], data) == CollectYears(env, market, tMarket, years, [])
      {
        var result := FindMarkets(years[k], tMarket);
        CollectYearsStep(env, market, tMarket, years, k, data, result);
        if result.Err? {
          assert YearTable(old(Env()), market, tMarket, years) == Err(result.error);
          return Fail(result.error);
        }
        data := Put(data, years[k], result.value);
        k := k + 1;
      }
      assert years[k..] == [];
      assert YearTable(old(Env()), market, tMarket, years) == Ok(data);
      timeSeries := Some(data);
      suppliers := MarketByYear(tYear);
      outcome := Pass;
    }
  }
}
