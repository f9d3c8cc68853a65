/**
 * Concrete runs of `find_markets` that exhibit two behaviours of the code
 * which a reader might not expect: the seed can be found twice, and a
 * higher `tMarket` can find more markets rather than fewer.
 *
 * Each run is stated for every environment that agrees with a concrete one
 * on what the run reads (production rows, trade rows for 2000, directory
 * entries), and a lemma shows that the concrete environment is one of them.
 */
module Witnesses {
  import opened Types
  import opened Seqs
  import opened Dicts
  import opened CodeDirectory
  import opened Production
  import opened ShareFilter
  import opened MarketExpander

  /** A seed that reports imports from itself worth a tenth of its production. */
  function SelfTrader(): Env
  {
    Env([ProductionRow(1, map[2000 := 100.0])],
        [("Seedland", 1)],
        (c: Code, y: Year) => if c == 1 then [Row("SLD", 1, 10.0)] else [])
  }

  /** What the run below uses of `SelfTrader()`: its one production row, its one directory entry and the seed's trade rows in 2000. */
  ghost predicate SelfTraderLike(env: Env)
  {
    && env.production == [ProductionRow(1, map[2000 := 100.0])]
    && |env.directory| == 1 && env.directory[0] == ("Seedland", 1)
    && env.trade(1, 2000) == [Row("SLD", 1, 10.0)]
  }

  lemma SelfTraderIsSelfTraderLike()
    ensures SelfTraderLike(SelfTrader())
  {
  }

  /**
   * Round 1 appends the seed's qualifying partners without looking at the
   * found list, so a seed that trades with itself is found twice.
   */
  lemma SeedFoundTwice(env: Env)
    requires SelfTraderLike(env)
    ensures FindMarkets(Query(env, 2000, 0.05), "Seedland") == Ok(Markets([1, 1], ["Seedland", "Seedland"]))
  {
    var q := Query(env, 2000, 0.05);
    var st := Expansion([1, 1], [1], [1], 100.0, 1);
    SelfTraderFirstRound(q);
    assert [1, 1][..1] == [1] && [1][..0] == [];
    assert Without(st.found, st.checked) == [];
    assert Expand(q, st) == Ok(st);
    SelfTraderNames(env.directory);
  }

  lemma SelfTraderFirstRound(q: Query)
    requires SelfTraderLike(q.env) && q.year == 2000 && q.tMarket == 0.05
    ensures FirstRound(q, "Seedland") == Ok(Expansion([1, 1], [1], [1], 100.0, 1))
  {
    var d := q.env.directory;
    assert Get(d, "Seedland") == Some(1);
    assert CodeOf(d, "Seedland") == Ok(1);
    var rows := q.env.production;
    ProductionOfFirstRow(rows, d, 1, 2000, 0);
    AdmittedOne(q, 1, 100.0, Row("SLD", 1, 10.0));
    assert Qualifies(10.0, 100.0, 0.05);
    assert Admitted(q, 1, 100.0) == [1];
    assert [1][1..] == [];
    assert Total(q, []) == Ok(0.0);
    assert Total(q, [1]) == Ok(100.0);
    FirstRoundFrom(q, "Seedland", 1, 100.0, [1], 100.0);
    assert [1] + [1] == [1, 1];
  }

  lemma SelfTraderNames(d: Directory)
    requires |d| == 1 && d[0] == ("Seedland", 1)
    ensures Names(d, [1, 1]) == Ok(["Seedland", "Seedland"])
  {
    NameOfLastEntry(d, 1, "Seedland");
    NamesAre(d, [1, 1], ["Seedland", "Seedland"]);
  }

  /**
   * A seed S (code 1) with production 100 imports 10 from A (code 2) and 3
   * from B (code 3); A imports 5 from C (code 4), C imports 5 from D
   * (code 5). Only B produces anything besides S.
   */
  function Chain(): Env
  {
    Env(ChainRows(),
        [("S", 1), ("A", 2), ("B", 3), ("C", 4), ("D", 5)],
        (c: Code, y: Year) =>
          if c == 1 then [Row("AAA", 2, 10.0), Row("BBB", 3, 3.0)]
          else if c == 2 then [Row("CCC", 4, 5.0)]
          else if c == 4 then [Row("DDD", 5, 5.0)]
          else [])
  }

  function ChainRows(): seq<ProductionRow>
  {
    [ProductionRow(1, map[2000 := 100.0]), ProductionRow(2, map[2000 := 0.0]),
     ProductionRow(3, map[2000 := 1000.0]), ProductionRow(4, map[2000 := 0.0]),
     ProductionRow(5, map[2000 := 0.0])]
  }

  /**
   * What the runs below use of `Chain()`: its production table, the trade
   * rows of each market in 2000, and the entries of its directory.
   */
  ghost predicate ChainLike(env: Env)
  {
    && env.production == ChainRows()
    && env.trade(1, 2000) == [Row("AAA", 2, 10.0), Row("BBB", 3, 3.0)]
    && env.trade(2, 2000) == [Row("CCC", 4, 5.0)]
    && env.trade(3, 2000) == []
    && env.trade(4, 2000) == [Row("DDD", 5, 5.0)]
    && env.trade(5, 2000) == []
    && ChainDirectoryLike(env.directory)
  }

  ghost predicate ChainDirectoryLike(d: Directory)
  {
    && |d| == 5
    && d[0] == ("S", 1) && d[1] == ("A", 2) && d[2] == ("B", 3)
    && d[3] == ("C", 4) && d[4] == ("D", 5)
  }

  lemma ChainIsChainLike()
    ensures ChainLike(Chain())
  {
  }

  lemma ChainNamesFirst(d: Directory)
    requires ChainDirectoryLike(d)
    ensures Names(d, [1, 2, 3]) == Ok(["S", "A", "B"])
  {
    var codes, names := [1, 2, 3], ["S", "A", "B"];
    forall i | 0 <= i < 3
      ensures NameOf(d, codes[i]) == Ok(names[i])
    {
      assert codes[i] == i + 1 && names[i] == d[i].0;
      ChainName(d, i);
    }
    NamesAre(d, codes, names);
  }

  lemma ChainNamesSecond(d: Directory)
    requires ChainDirectoryLike(d)
    ensures Names(d, [1, 2, 4, 5]) == Ok(["S", "A", "C", "D"])
  {
    var codes, names := [1, 2, 4, 5], ["S", "A", "C", "D"];
    forall i | 0 <= i < 4
      ensures NameOf(d, codes[i]) == Ok(names[i])
    {
      var k := if i < 2 then i else i + 1;
      assert codes[i] == k + 1 && names[i] == d[k].0;
      ChainName(d, k);
    }
    NamesAre(d, codes, names);
  }

  /**
   * Raising `tMarket` from 0.02 to 0.05 grows the markets found from three
   * to four. At 0.05, B no longer qualifies in round 1. The reference
   * production then stays 0, so C and D qualify with an infinite share.
   */
  lemma HigherThresholdFindsMore(env: Env)
    requires ChainLike(env)
    ensures FindMarkets(Query(env, 2000, 0.02), "S") == Ok(Markets([1, 2, 3], ["S", "A", "B"]))
    ensures FindMarkets(Query(env, 2000, 0.05), "S") == Ok(Markets([1, 2, 4, 5], ["S", "A", "C", "D"]))
  {
    LowThreshold(Query(env, 2000, 0.02));
    HighThreshold(Query(env, 2000, 0.05));
  }

  lemma LowThreshold(q: Query)
    requires ChainLike(q.env) && q.year == 2000 && q.tMarket == 0.02
    ensures FindMarkets(q, "S") == Ok(Markets([1, 2, 3], ["S", "A", "B"]))
  {
    ChainStart(q);
    ChainCodeOfS(q.env.directory);
    LowFirstRound(q);
    LowExpand(q);
    ChainNamesFirst(q.env.directory);
  }

  /** At 0.02 the second round admits nothing new, and the loop stops. */
  lemma LowExpand(q: Query)
    requires q.tMarket == 0.02
    requires q.env.trade(2, q.year) == [Row("CCC", 4, 5.0)] && q.env.trade(3, q.year) == []
    ensures Expand(q, Expansion([1, 2, 3], [1], [2, 3], 1000.0, 1)) == Ok(Expansion([1, 2, 3], [1, 2, 3], [], 1000.0, 2))
  {
    var st1 := Expansion([1, 2, 3], [1], [2, 3], 1000.0, 1);
    var st2 := Expansion([1, 2, 3], [1, 2, 3], [], 1000.0, 2);
    LowSecondRound(q);
    ExpandThrough(q, st1, st2, 2);
  }

  lemma LowFirstRound(q: Query)
    requires q.year == 2000 && q.tMarket == 0.02
    requires ProductionIn(q, 1) == Ok(100.0) && Total(q, [2, 3]) == Ok(1000.0)
    requires q.env.trade(1, 2000) == [Row("AAA", 2, 10.0), Row("BBB", 3, 3.0)]
    requires CodeOf(q.env.directory, "S") == Ok(1)
    ensures FirstRound(q, "S") == Ok(Expansion([1, 2, 3], [1], [2, 3], 1000.0, 1))
  {
    FirstAdmittedLow(q);
    FirstRoundFrom(q, "S", 1, 100.0, [2, 3], 1000.0);
    assert [1] + [2, 3] == [1, 2, 3];
  }

  lemma LowSecondRound(q: Query)
    requires q.tMarket == 0.02
    requires q.env.trade(2, q.year) == [Row("CCC", 4, 5.0)] && q.env.trade(3, q.year) == []
    ensures Round(q, Expansion([1, 2, 3], [1], [2, 3], 1000.0, 1)) ==
            Ok(Expansion([1, 2, 3], [1, 2, 3], [], 1000.0, 2))
  {
    AdmittedOne(q, 2, 1000.0, Row("CCC", 4, 5.0));
    assert !Qualifies(5.0, 1000.0, 0.02);
    assert Admitted(q, 2, 1000.0) == [];
    AdmittedNone(q, 3, 1000.0);
    TwoQuietCodesRound(q, Expansion([1, 2, 3], [1], [2, 3], 1000.0, 1), 2, 3);
    assert [1] + [2, 3] == [1, 2, 3];
  }

  lemma HighThreshold(q: Query)
    requires ChainLike(q.env) && q.year == 2000 && q.tMarket == 0.05
    ensures FindMarkets(q, "S") == Ok(Markets([1, 2, 4, 5], ["S", "A", "C", "D"]))
  {
    ChainStart(q);
    ChainCodeOfS(q.env.directory);
    HighFirstRound(q);
    HighExpand(q);
    ChainNamesSecond(q.env.directory);
  }

  lemma HighFirstRound(q: Query)
    requires q.year == 2000 && q.tMarket == 0.05
    requires ProductionIn(q, 1) == Ok(100.0) && Total(q, [2]) == Ok(0.0)
    requires q.env.trade(1, 2000) == [Row("AAA", 2, 10.0), Row("BBB", 3, 3.0)]
    requires CodeOf(q.env.directory, "S") == Ok(1)
    ensures FirstRound(q, "S") == Ok(Expansion([1, 2], [1], [2], 0.0, 1))
  {
    FirstAdmittedHigh(q);
    FirstRoundFrom(q, "S", 1, 100.0, [2], 0.0);
    assert [1] + [2] == [1, 2];
  }

  /** At 0.05 the rounds after the first reach C, then D, then stop. */
  lemma HighExpand(q: Query)
    requires q.tMarket == 0.05
    requires q.env.trade(2, q.year) == [Row("CCC", 4, 5.0)] && q.env.trade(4, q.year) == [Row("DDD", 5, 5.0)]
    requires q.env.trade(5, q.year) == []
    requires Total(q, [4]) == Ok(0.0) && Total(q, [5]) == Ok(0.0)
    ensures Expand(q, Expansion([1, 2], [1], [2], 0.0, 1)) == Ok(Expansion([1, 2, 4, 5], [1, 2, 4, 5], [], 0.0, 4))
  {
    var st1 := Expansion([1, 2], [1], [2], 0.0, 1);
    var st2 := Expansion([1, 2, 4], [1, 2], [4], 0.0, 2);
    assert st1.found + [4] == st2.found && st1.checked + [2] == st2.checked;
    HighRound(q, 2, 4, st1, st2, Row("CCC", 4, 5.0));
    HighExpandLater(q);
    ExpandStepAt(q, st1, st2, 2);
  }

  lemma HighExpandLater(q: Query)
    requires q.tMarket == 0.05
    requires q.env.trade(4, q.year) == [Row("DDD", 5, 5.0)] && q.env.trade(5, q.year) == []
    requires Total(q, [5]) == Ok(0.0)
    ensures Expand(q, Expansion([1, 2, 4], [1, 2], [4], 0.0, 2)) == Ok(Expansion([1, 2, 4, 5], [1, 2, 4, 5], [], 0.0, 4))
  {
    var st2 := Expansion([1, 2, 4], [1, 2], [4], 0.0, 2);
    var st3 := Expansion([1, 2, 4, 5], [1, 2, 4], [5], 0.0, 3);
    assert st2.found + [5] == st3.found && st2.checked + [4] == st3.checked;
    HighRound(q, 4, 5, st2, st3, Row("DDD", 5, 5.0));
    HighLastStep(q);
    ExpandStepAt(q, st2, st3, 4);
  }

  lemma HighLastStep(q: Query)
    requires q.env.trade(5, q.year) == []
    ensures Expand(q, Expansion([1, 2, 4, 5], [1, 2, 4], [5], 0.0, 3)) == Ok(Expansion([1, 2, 4, 5], [1, 2, 4, 5], [], 0.0, 4))
  {
    HighLastRound(q);
    ExpandThrough(q, Expansion([1, 2, 4, 5], [1, 2, 4], [5], 0.0, 3), Expansion([1, 2, 4, 5], [1, 2, 4, 5], [], 0.0, 4), 5);
  }

  /**
   * A round over a reference production of 0 whose one frontier code `m`
   * has one row, a positive import from a new code `x` of production 0:
   * `x` qualifies and is staged.
   */
  lemma HighRound(q: Query, m: Code, x: Code, st: Expansion, next: Expansion, r: Row)
    requires q.env.trade(m, q.year) == [r] && r.partnerIso != World && r.partnerCode == x && r.netWeight > 0.0
    requires Total(q, [x]) == Ok(0.0)
    requires st.frontier == [m] && m !in st.checked && x !in st.found && st.reference == 0.0
    requires next == Expansion(st.found + [x], st.checked + [m], [x], 0.0, st.round + 1)
    ensures Round(q, st) == Ok(next)
  {
    AdmittedOne(q, m, 0.0, r);
    assert Qualifies(r.netWeight, 0.0, q.tMarket);
    assert [x][..0] == [];
    assert Without([x], st.found) == [x];
    OneCodeRound(q, st, m, 0.0);
  }

  lemma HighLastRound(q: Query)
    requires q.env.trade(5, q.year) == []
    ensures Round(q, Expansion([1, 2, 4, 5], [1, 2, 4], [5], 0.0, 3)) ==
            Ok(Expansion([1, 2, 4, 5], [1, 2, 4, 5], [], 0.0, 4))
  {
    var st := Expansion([1, 2, 4, 5], [1, 2, 4], [5], 0.0, 3);
    AdmittedNone(q, 5, 0.0);
    assert Without([], st.found) == [];
    assert Total(q, []) == Ok(0.0);
    OneCodeRound(q, st, 5, 0.0);
    assert [1, 2, 4] + [5] == [1, 2, 4, 5] && [1, 2, 4, 5] + [] == [1, 2, 4, 5];
  }

  /** At 0.02 both of S's partners qualify: A has a 10% share, B a 3% share. */
  lemma FirstAdmittedLow(q: Query)
    requires q.env.trade(1, q.year) == [Row("AAA", 2, 10.0), Row("BBB", 3, 3.0)] && q.tMarket == 0.02
    ensures Admitted(q, 1, 100.0) == [2, 3]
  {
    AdmittedTwo(q, 1, 100.0, Row("AAA", 2, 10.0), Row("BBB", 3, 3.0));
    assert Qualifies(10.0, 100.0, 0.02) && Qualifies(3.0, 100.0, 0.02);
    assert [2] + [3] == [2, 3];
  }

  /** At 0.05 only A qualifies. */
  lemma FirstAdmittedHigh(q: Query)
    requires q.env.trade(1, q.year) == [Row("AAA", 2, 10.0), Row("BBB", 3, 3.0)] && q.tMarket == 0.05
    ensures Admitted(q, 1, 100.0) == [2]
  {
    AdmittedTwo(q, 1, 100.0, Row("AAA", 2, 10.0), Row("BBB", 3, 3.0));
    assert Qualifies(10.0, 100.0, 0.05) && !Qualifies(3.0, 100.0, 0.05);
    assert [2] + [] == [2];
  }

  /** S's production, and the production totals the rounds add. */
  lemma ChainStart(q: Query)
    requires q.env.production == ChainRows() && q.year == 2000
    ensures ProductionIn(q, 1) == Ok(100.0)
    ensures Total(q, [2, 3]) == Ok(1000.0)
    ensures Total(q, [2]) == Ok(0.0) && Total(q, [4]) == Ok(0.0) && Total(q, [5]) == Ok(0.0)
  {
    ChainProduction(q, 0);
    ChainTotalBoth(q);
    ChainTotalOne(q, 2);
    ChainTotalOne(q, 4);
    ChainTotalOne(q, 5);
  }

  lemma ChainTotalBoth(q: Query)
    requires q.env.production == ChainRows() && q.year == 2000
    ensures Total(q, [2, 3]) == Ok(1000.0)
  {
    assert Total(q, []) == Ok(0.0);
    ChainProduction(q, 1);
    ChainProduction(q, 2);
    assert [2, 3][1..] == [3] && [3][1..] == [];
    assert Total(q, [3]) == Ok(1000.0);
  }

  lemma ChainTotalOne(q: Query, c: Code)
    requires q.env.production == ChainRows() && q.year == 2000
    requires c in {2, 4, 5}
    ensures Total(q, [c]) == Ok(0.0)
  {
    assert Total(q, []) == Ok(0.0);
    ChainProduction(q, c - 1);
    assert ChainRows()[c - 1].volume[2000] == 0.0;
    assert [c][1..] == [];
  }

  /** Round 1 from its lookups: the seed's code, its production, what it admits and their production. */
  lemma FirstRoundFrom(q: Query, seed: Name, code: Code, own: real, admitted: seq<Code>, p: real)
    requires CodeOf(q.env.directory, seed) == Ok(code)
    requires ProductionIn(q, code) == Ok(own)
    requires Admitted(q, code, own) == admitted
    requires Total(q, admitted) == Ok(p)
    ensures FirstRound(q, seed) == Ok(Expansion([code] + admitted, [code], admitted, p, 1))
  {
  }

  /** A round whose frontier is the one unchecked code `m`. */
  lemma OneCodeRound(q: Query, st: Expansion, m: Code, p: real)
    requires st.frontier == [m] && m !in st.checked
    requires Total(q, Without(Admitted(q, m, st.reference), st.found)) == Ok(p)
    ensures var added := Without(Admitted(q, m, st.reference), st.found);
            Round(q, st) == Ok(Expansion(st.found + added, st.checked + [m], added, st.reference + p, st.round + 1))
  {
    var added := Without(Admitted(q, m, st.reference), st.found);
    assert st.found + [] == st.found && [] + added == added && [m][1..] == [];
    var sc := Scan(st.checked + [m], added);
    assert ScanFrontier(q, st.reference, st.found, [m], st.checked, []) == sc;
    RoundOf(q, st, sc);
  }

  /** A round whose frontier is two unchecked codes that admit nothing. */
  lemma TwoQuietCodesRound(q: Query, st: Expansion, m1: Code, m2: Code)
    requires st.frontier == [m1, m2] && m1 != m2 && m1 !in st.checked && m2 !in st.checked
    requires Admitted(q, m1, st.reference) == [] && Admitted(q, m2, st.reference) == []
    ensures Round(q, st) == Ok(Expansion(st.found, st.checked + [m1, m2], [], st.reference, st.round + 1))
  {
    var none: seq<Code> := [];
    assert Without(none, st.found + none) == none && none + none == none;
    assert [m1, m2][1..] == [m2] && [m2][1..] == [];
    assert st.checked + [m1] + [m2] == st.checked + [m1, m2];
    var sc := Scan(st.checked + [m1, m2], []);
    ScanStep(q, st.reference, st.found, [m1, m2], st.checked, none);
    ScanStep(q, st.reference, st.found, [m2], st.checked + [m1], none);
    assert ScanFrontier(q, st.reference, st.found, [], st.checked + [m1] + [m2], none) == sc;
    assert Total(q, []) == Ok(0.0) && st.found + [] == st.found;
    RoundOf(q, st, sc);
  }

  /** The loop takes one more round while code `x` is found but unchecked. */
  lemma ExpandStepAt(q: Query, st: Expansion, next: Expansion, x: Code)
    requires x in st.found && x !in st.checked && st.round < StopN
    requires Round(q, st) == Ok(next)
    ensures Expand(q, st) == Expand(q, next)
  {
    assert x in Without(st.found, st.checked);
    ExpandStep(q, st, next);
  }

  /** One last round, after which every found code is checked and the loop stops. */
  lemma ExpandThrough(q: Query, st: Expansion, last: Expansion, x: Code)
    requires x in st.found && x !in st.checked && st.round < StopN
    requires Round(q, st) == Ok(last) && last.checked == last.found
    ensures Expand(q, st) == Ok(last)
  {
    ExpandStepAt(q, st, last, x);
    WithoutEmpty(last.found, last.checked);
  }

  lemma ChainCodeOfS(d: Directory)
    requires ChainDirectoryLike(d)
    ensures CodeOf(d, "S") == Ok(1)
  {
    assert Get(d, "S") == Some(1);
  }

  /** Chain market `i + 1` has row `i`, so its production is read from the table. */
  lemma ChainProduction(q: Query, i: nat)
    requires q.env.production == ChainRows() && q.year == 2000 && i < 5
    ensures ProductionIn(q, i + 1) == Ok(ChainRows()[i].volume[2000])
  {
    var rows := q.env.production;
    assert forall j :: 0 <= j < 5 ==> rows[j].comtradeNo == j + 1;
    ProductionOfFirstRow(rows, q.env.directory, i + 1, 2000, i);
  }

  /** Entry `i` of the chain directory names code `i + 1`, which no later entry reuses. */
  lemma ChainName(d: Directory, i: nat)
    requires ChainDirectoryLike(d) && i < 5
    ensures NameOf(d, i + 1) == Ok(d[i].0)
  {
    assert forall j :: 0 <= j < 5 ==> d[j].1 == j + 1;
    assert d[i] == (d[i].0, i + 1);
    NameOfLastEntry(d, i + 1, d[i].0);
  }

  /** The names of a list whose every code has a name. */
  lemma NamesAre(d: Directory, codes: seq<Code>, names: seq<Name>)
    requires |codes| == |names|
    requires forall i :: 0 <= i < |codes| ==> NameOf(d, codes[i]) == Ok(names[i])
    ensures Names(d, codes) == Ok(names)
  {
    NamesMeaning(d, codes);
    assert Names(d, codes).value == names;
  }

  /** Nothing is left to check once every found code has been checked. */
  lemma {:induction false} WithoutEmpty(s: seq<Code>, excluded: seq<Code>)
    requires forall i :: 0 <= i < |s| ==> s[i] in excluded
    ensures Without(s, excluded) == []
  {
    if s != [] {
      var n := |s| - 1;
      assert s[n] in excluded;
      WithoutEmpty(s[..n], excluded);
    }
  }

  /** An importer with no rows admits nothing. */
  lemma AdmittedNone(q: Query, importer: Code, reference: real)
    requires q.env.trade(importer, q.year) == []
    ensures Admitted(q, importer, reference) == []
  {
    assert NotWorld([]) == [];
    assert Distinct(RowCodes([])) == [];
    assert Aggregate([]) == [];
  }

  /** An importer with one non-world row admits its partner iff the row qualifies. */
  lemma AdmittedOne(q: Query, importer: Code, reference: real, r: Row)
    requires q.env.trade(importer, q.year) == [r] && r.partnerIso != World
    ensures Admitted(q, importer, reference) ==
            if Qualifies(r.netWeight, reference, q.tMarket) then [r.partnerCode] else []
  {
    AggregateOne(r);
    KeptOne(Entry(r.partnerCode, r.netWeight), reference, q.tMarket);
  }

  /** One non-world row makes a table of one entry. */
  lemma AggregateOne(r: Row)
    requires r.partnerIso != World
    ensures Aggregate(NotWorld([r])) == [Entry(r.partnerCode, r.netWeight)]
  {
    var rows, c := [r], r.partnerCode;
    assert rows[..0] == [];
    assert NotWorld(rows) == rows;
    assert RowCodes(rows) == [c];
    assert [c][..0] == [];
    assert Distinct([c]) == [c];
    assert WeightOf(rows, c) == r.netWeight;
  }

  /** An importer with two non-world rows for different partners admits each that qualifies, in order. */
  lemma AdmittedTwo(q: Query, importer: Code, reference: real, r1: Row, r2: Row)
    requires q.env.trade(importer, q.year) == [r1, r2]
    requires r1.partnerIso != World && r2.partnerIso != World && r1.partnerCode != r2.partnerCode
    ensures Admitted(q, importer, reference) ==
            (if Qualifies(r1.netWeight, reference, q.tMarket) then [r1.partnerCode] else []) +
            (if Qualifies(r2.netWeight, reference, q.tMarket) then [r2.partnerCode] else [])
  {
    var e1, e2 := Entry(r1.partnerCode, r1.netWeight), Entry(r2.partnerCode, r2.netWeight);
    AggregateTwo(r1, r2);
    KeptTwo(e1, e2, reference, q.tMarket);
  }

  /** Two non-world rows for different partners make a table of two entries, in row order. */
  lemma AggregateTwo(r1: Row, r2: Row)
    requires r1.partnerIso != World && r2.partnerIso != World && r1.partnerCode != r2.partnerCode
    ensures Aggregate(NotWorld([r1, r2])) == [Entry(r1.partnerCode, r1.netWeight), Entry(r2.partnerCode, r2.netWeight)]
  {
    var rows := [r1, r2];
    assert rows[..1] == [r1] && [r1][..0] == [];
    assert NotWorld([r1]) == [r1];
    assert NotWorld(rows) == rows;
    DistinctTwo(r1.partnerCode, r2.partnerCode);
    assert RowCodes(rows) == [r1.partnerCode, r2.partnerCode];
    WeightOfTwo(r1, r2);
  }

  /** Two different codes are already distinct. */
  lemma DistinctTwo(c1: Code, c2: Code)
    requires c1 != c2
    ensures Distinct([c1, c2]) == [c1, c2]
  {
    assert [c1, c2][..1] == [c1] && [c1][..0] == [];
    assert Distinct([c1]) == [c1];
  }

  /** Over two rows for different partners, each partner's weight is its own row's. */
  lemma WeightOfTwo(r1: Row, r2: Row)
    requires r1.partnerCode != r2.partnerCode
    ensures WeightOf([r1, r2], r1.partnerCode) == r1.netWeight
    ensures WeightOf([r1, r2], r2.partnerCode) == r2.netWeight
  {
    assert [r1, r2][..1] == [r1] && [r1][..0] == [];
    assert WeightOf([r1], r1.partnerCode) == r1.netWeight && WeightOf([r1], r2.partnerCode) == 0.0;
  }

  /** Filtering a table of one entry keeps it exactly when it qualifies. */
  lemma KeptOne(e: Entry, reference: real, tMarket: real)
    ensures EntryCodes(Kept([e], reference, tMarket)) ==
            if Qualifies(e.netWeight, reference, tMarket) then [e.partnerCode] else []
  {
    var none: seq<Entry> := [];
    assert [e][..0] == none && none + [e] == [e];
    assert Kept(none, reference, tMarket) == none;
    var kept := Kept([e], reference, tMarket);
    if Qualifies(e.netWeight, reference, tMarket) {
      assert kept == [e];
    } else {
      assert kept == none;
    }
  }

  /** Filtering a table of two entries keeps each that qualifies, in order. */
  lemma KeptTwo(e1: Entry, e2: Entry, reference: real, tMarket: real)
    ensures EntryCodes(Kept([e1, e2], reference, tMarket)) ==
            (if Qualifies(e1.netWeight, reference, tMarket) then [e1.partnerCode] else []) +
            (if Qualifies(e2.netWeight, reference, tMarket) then [e2.partnerCode] else [])
  {
    var table := [e1, e2];
    assert table[..1] == [e1] && [e1][..0] == [];
    var q1, q2 := Qualifies(e1.netWeight, reference, tMarket), Qualifies(e2.netWeight, reference, tMarket);
    var k1 := if q1 then [e1] else [];
    assert Kept([e1], reference, tMarket) == k1;
    var kept := Kept(table, reference, tMarket);
    assert kept == k1 + if q2 then [e2] else [];
  }
}
