# marginal-finder: the market finder, modelled in Dafny

`ComtradeMarketFinder` (in `marginal_finder/market_finder.py`) looks for the
*marginal market* of a commodity, here cement. It starts from a seed country.
It asks the UN Comtrade service for that country's imports and keeps every
partner whose import weight is more than a share `tMarket` of the seed's own
production. Then it repeats the same test, round by round, for the partners
just found, always against the production of all markets found after the seed. The
search stops once a round finds nothing new, or after `stop_n = 50` rounds.
Run over a range of years, the finder keeps the countries that appear in
often enough years (`tYear`).

This project models that core and proves what it guarantees:

| file | module | models |
|---|---|---|
| `types.dfy` | `Types` | codes, names, years; the errors that can escape to the caller, as a `Result` |
| `seqs.dfy` | `Seqs` | counting, de-duplicating and filtering sequences |
| `dicts.dfy` | `Dicts` | a Python `dict` as an insertion-ordered list of pairs: lookup, assignment, comprehension, inversion |
| `codes.dfy` | `CodeDirectory` | `_get_codes`, `_get_country_code`, `_get_country_name` |
| `production.dfy` | `Production` | `_get_production_amount` and the `sum(...)` over a list of codes |
| `share_filter.dfy` | `ShareFilter` | the filtering part of `_parse_comtrade_data`: drop world rows, sum net weight per partner, share test |
| `market_expander.dfy` | `MarketExpander` | `find_markets` as reference functions (first round, one round, the loop, the names) and its invariants |
| `persistence.dfy` | `Persistence` | `multi_year_markets`' year table and `_market_by_year`'s count and threshold |
| `market_finder.dfy` | `MarketFinder` | the class `ComtradeMarketFinder`: its fields and the imperative `find_markets`, `multi_year_markets` and `_market_by_year`, each proved equal to its reference function |
| `witnesses.dfy` | `Witnesses` | two concrete runs of `find_markets`: a seed found twice, and a higher `tMarket` that finds more markets |

The class's methods keep the loops of the source. `FindMarkets` runs
round 1 and then `Rounds`, the `while` loop. Each pass of that loop is
`OnePass`: first `CheckFrontier`, the inner `for m in iteration_codes`
loop, then `Extend`, the `+=` of production and the frontier update. Each
method's `ensures` ties its result to a reference function in
`MarketExpander` or `Persistence`. The lemmas in those modules state the
properties of those reference functions.

Some things outside the program are parameters of the model:

- The Comtrade service is a total function `trade: (Code, Year) -> seq<Row>`. It gives the import rows a reporter declared for a year and the configured commodity codes.
- The production CSV is a list of rows, each with a `Comtrade_No` and one volume per year.
- The partner-area JSON is a list of `{text, id}` entries.

Some behaviours of the code that a reader might not expect:

- **Zero reference production.** A positive weight over a production of 0 is an infinite share, so the partner qualifies. A zero weight gives NaN, so the partner does not (`ShareFilter.QualifiesIsShareTest`).
- **Persistence count.** `_market_by_year` counts a country's *occurrences* across the years' name lists, not the number of years it appears in. The two counts are equal when no year lists a name twice (`Persistence.CountCoversYears`).
- **Self-trade.** A partner equal to the importer is not excluded. It is admitted like any other partner that qualifies.
- **Round 1 duplicates.** Round 1 appends its admitted partners to the found list without checking it. A seed that reports imports from itself is therefore found twice (`Witnesses.SeedFoundTwice`). After the seed, no code is found twice (`MarketExpander.ExpandDistinct`).
- **Raising `tMarket`.** Within one filter call, a higher threshold keeps no more partners (`ShareFilter.KeptShrinks`). Over a whole run it can find more markets. A partner dropped in round 1 no longer adds its production to the reference, so later rounds test against a smaller reference (`Witnesses.HigherThresholdFindsMore`).

## Model

| member | source | states |
|---|---|---|
| Dicts.GetFromPairs | marginal_finder/market_finder.py:62 | a dict built by a comprehension maps each key to the value of its last pair, and lacks the keys no pair has |
| Dicts.InvertIsFromPairs | marginal_finder/market_finder.py:70 | `{v: k for k, v in d.items()}` is the comprehension over the swapped items, in dict order |
| CodeDirectory.BuildDirectory | marginal_finder/market_finder.py:56-62 | the name -> code dict holds each name once |
| CodeDirectory.CodeOf | marginal_finder/market_finder.py:64-66 | the lookup fails, with `UnknownName(name)`, exactly when the name is not a key; otherwise it returns the code stored for it |
| CodeDirectory.CodeOfLastEntry | marginal_finder/market_finder.py:56-66 | a name maps to a code iff some entry of the area list pairs them and no later entry has that name; the lookup fails iff no entry has the name |
| CodeDirectory.NameOfLastEntry | marginal_finder/market_finder.py:68-72 | a code maps back to the last name in dict order that has it; the reverse lookup fails iff no name has that code |
| CodeDirectory.NameOfThenCodeOf | marginal_finder/market_finder.py:64-72 | a name found for a code maps back to that code |
| CodeDirectory.CodeOfThenNameOf | marginal_finder/market_finder.py:64-72 | when no two names share a code, the code found for a name maps back to that name |
| Production.ProductionOf | marginal_finder/market_finder.py:39-54 | a production lookup fails only with `MissingYear(year)` or `UnknownCode(code)` |
| Production.ProductionOfFirstRow | marginal_finder/market_finder.py:44-48 | a code with a row reads the year's column of its first row, and fails with `MissingYear` when that column is missing |
| Production.ProductionOfAbsent | marginal_finder/market_finder.py:44-52 | a code with no row has production 0 when the directory can name it, and fails with `UnknownCode` otherwise |
| Production.TotalProductionAppend | marginal_finder/market_finder.py:224 | the sum over two lists in a row is the sum of the sums, and the first failure wins |
| Production.TotalProductionOk | marginal_finder/market_finder.py:184 | the sum succeeds iff every lookup in it succeeds |
| ShareFilter.NotWorld | marginal_finder/market_finder.py:139-141 | every row keeps its multiplicity, except world-aggregate rows, which are dropped |
| ShareFilter.Aggregate | marginal_finder/market_finder.py:143 | one entry per partner code that has a row, each holding the summed net weight of that partner's rows |
| ShareFilter.QualifiesIsShareTest | marginal_finder/market_finder.py:145-147 | for a non-zero production, the test is `weight / production > tMarket`; for a zero production, a partner qualifies iff its weight is positive |
| ShareFilter.Kept | marginal_finder/market_finder.py:147-149 | the kept entries are exactly the table entries that qualify, with no code twice |
| ShareFilter.ParseMeaning | marginal_finder/market_finder.py:139-149 | the table lists each partner that has a non-world row once, with the summed weight of those rows; an entry is kept iff it qualifies |
| ShareFilter.KeptShrinks | marginal_finder/market_finder.py:145-149 | within one filter call, over one table and one production, raising `tMarket` never keeps more partners |
| MarketExpander.Admitted | marginal_finder/market_finder.py:174-176 | the partner codes a query admits are distinct |
| MarketExpander.AdmittedMeaning | marginal_finder/market_finder.py:139-149 | a partner is admitted iff it has a non-world row and its summed non-world weight qualifies against the reference production |
| MarketExpander.ScanChecked | marginal_finder/market_finder.py:201-205 | the inner loop checks exactly the frontier codes not checked before, each once |
| MarketExpander.ScanStaged | marginal_finder/market_finder.py:211-220 | `new_extras` has no duplicates and holds no code already found |
| MarketExpander.ScanSound | marginal_finder/market_finder.py:201-220 | every staged code was admitted by a code the loop queried, against the round's reference |
| MarketExpander.ScanComplete | marginal_finder/market_finder.py:201-220 | every code admitted by a queried code ends up found or staged |
| MarketExpander.RoundQueries | marginal_finder/market_finder.py:199-205 | a round only appends to `checked_markets`, appending exactly the frontier codes not checked before, each once |
| MarketExpander.RoundAdmits | marginal_finder/market_finder.py:199-228 | a round's new frontier is duplicate-free and new to the found list; each new code was admitted by a code queried this round; every admitted code is found afterwards |
| MarketExpander.RoundKeepsInv | marginal_finder/market_finder.py:192-230 | one round keeps the invariant (the seed stays first, `checked_markets` is duplicate-free and within the found list, every found code not yet checked waits in the frontier, the reference production is the sum over every found market after the seed); the reference grows by exactly the new frontier's production |
| MarketExpander.AdvanceTotal | marginal_finder/market_finder.py:224-228 | the `+=` keeps the reference equal to the sum of production over the found markets after the seed |
| MarketExpander.FirstRoundFacts | marginal_finder/market_finder.py:161-184 | round 1 queries the seed against its own production, finds `[seed] + admitted`, checks only the seed, and sets up the invariant |
| MarketExpander.ExpandFacts | marginal_finder/market_finder.py:188-230 | the loop keeps the invariant, stops within `stop_n` rounds, only extends the found list, and stops with every found market checked unless the cap was reached |
| MarketExpander.NamesMeaning | marginal_finder/market_finder.py:233 | the names are found iff every code has one, and then they line up with the codes |
| MarketExpander.ExpandDistinct | marginal_finder/market_finder.py:188-230 | when the found list has no duplicates after its first entry, the loop keeps it so: each round appends distinct codes that are new to the list |
| MarketExpander.FindMarketsFacts | marginal_finder/market_finder.py:151-235 | a successful `find_markets` returns round 1's found list extended by later rounds, each code with the name the directory gives it; no code occurs twice after the seed; every market found is checked unless the cap was reached |
| Witnesses.SeedFoundTwice | marginal_finder/market_finder.py:161-184 | in every environment shaped like `SelfTrader()`, where the seed's only import is from itself and above the share threshold, `find_markets` returns the seed twice, with its name twice |
| Witnesses.HigherThresholdFindsMore | marginal_finder/market_finder.py:145-230 | in every environment shaped like the five-country `Chain()`, `tMarket` 0.02 finds S, A, B and `tMarket` 0.05 finds S, A, C, D |
| Persistence.YearTableFacts | marginal_finder/market_finder.py:238-263 | the year table fails iff the year list is empty or some year fails; otherwise it has exactly the years asked for, each once, each holding that year's `find_markets` result |
| Persistence.KeptNames | marginal_finder/market_finder.py:286-294 | a name is kept iff it is among the counted names and its count reaches the threshold; no name is kept twice |
| Persistence.PersistentMeaning | marginal_finder/market_finder.py:265-305 | a name is kept iff its count across all years' lists is at least `len(time_series) * tYear`; the kept names are distinct and each comes from some year's list |
| Persistence.CountCoversYears | marginal_finder/market_finder.py:273-276 | the count is at least the number of years listing the name, and equal to it when no year lists a name twice |
| Persistence.KeptWhenEveryYear | marginal_finder/market_finder.py:278-293 | with `tYear <= 1`, a name listed in every year is kept |
| Persistence.NeverKeptWhenAbsent | marginal_finder/market_finder.py:273-293 | a name listed in no year is never kept |
| MarketFinder.ComtradeMarketFinder.constructor | marginal_finder/market_finder.py:12-30 | the finder stores its production table, the directory built from the area list, and its configuration; it has no time series yet |
| MarketFinder.ComtradeMarketFinder.FindMarkets | marginal_finder/market_finder.py:151-235 | the imperative `find_markets` returns what the reference `FindMarkets` defines for the finder's data, year and threshold |
| MarketFinder.ComtradeMarketFinder.Rounds | marginal_finder/market_finder.py:188-230 | the `while` loop ends as the reference loop `Expand` does from the lists round 1 leaves |
| MarketFinder.ComtradeMarketFinder.OnePass | marginal_finder/market_finder.py:192-230 | one pass of the loop gives the reference `Round` |
| MarketFinder.ComtradeMarketFinder.CheckFrontier | marginal_finder/market_finder.py:199-222 | the inner `for` loop gives the checked and staged lists of the reference `ScanFrontier` |
| MarketFinder.ComtradeMarketFinder.Extend | marginal_finder/market_finder.py:224-230 | the end of a pass adds the new codes' production to the reference and makes them the next frontier, as `Advance` does |
| MarketFinder.ComtradeMarketFinder.MarketByYear | marginal_finder/market_finder.py:265-309 | gives None before any multi-year run, and otherwise the names of `Persistent` for the stored time series |
| MarketFinder.ComtradeMarketFinder.MultiYearMarkets | marginal_finder/market_finder.py:238-263 | on success, stores the year table and its persistent names; on failure, both fields are left as they were and the error is reported |

## Left out

- Fetching from Comtrade (lines 74-98 and 114-133): URL building, HTTP retries and `sleep` are out of the model. Their result is the `trade` function. A fetch that fails four times is not modelled.
- Commodity codes: they only enter the URL, so they are folded into `trade`.
- Reading files (lines 32-37 and 56-62): `pd.read_csv` and `json.load` are out of the model. Their contents are constructor parameters.
- Printing is out of the model: the progress banners, the per-country messages and the table `_market_by_year` prints.
- Code types (lines 62, 176, 211): the model has a single code type. In the source, the seed's code is the `id` value of the area file, and every later code is built with `str`.
- Production values are exact reals, not floats. NaN entries and rounding are not modelled.
- Grouping (line 143): the model groups rows by partner code and orders the table by first appearance. pandas groups by six columns (reporter ISO, name and code, partner ISO, name and code) and sorts the keys. Which partners are admitted is the same only when each partner code comes with a single partner ISO and name and no grouping column is missing. Even then, the order within one round can differ.
- MarketExpander.FindMarkets: it does not do the name lookups inside the progress messages (lines 167, 196, 213, 216) at their original points. A code with no name still makes the run fail, at the latest in the final `market_names` lookup (line 233). But when a run has several faults, the error reported can be a different one.
- Optional arguments that default to the instance's fields (`year=None` and so on) are not modelled: the model always takes explicit values.
