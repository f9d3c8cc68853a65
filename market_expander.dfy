/**
 * `find_markets` as a state machine over one year: the breadth-first,
 * round-by-round expansion from a seed market. These functions are the
 * reference the imperative `ComtradeMarketFinder.FindMarkets` is proved
 * against; the lemmas state what every run of it guarantees.
 */
module MarketExpander {
  import opened Types
  import opened Seqs
  import opened Dicts
  import opened CodeDirectory
  import opened Production
  import opened ShareFilter

  /** The trade-flow service: the import rows a reporter declared for a year (for the configured commodities). */
  type TradeSource = (Code, Year) -> seq<Row>

  /** The data a finder is built from. */
  datatype Env = Env(production: seq<ProductionRow>, directory: Directory, trade: TradeSource)

  /** One year's question: which markets, with which share threshold. */
  datatype Query = Query(env: Env, year: Year, tMarket: real)

  /** What `find_markets` returns: the market codes and their names. */
  datatype Markets = Markets(codes: seq<Code>, names: seq<Name>)

  /**
   * The lists `find_markets` keeps: `found_markets`, `checked_markets`,
   * `iteration_codes` (the frontier), `extra_market_production` (the
   * reference production of the next round) and the round counter `i`.
   */
  datatype Expansion = Expansion(found: seq<Code>, checked: seq<Code>, frontier: seq<Code>,
                                 reference: real, round: nat)

  /** `stop_n`: the round counter never passes it. */
  const StopN: nat := 50

  function ProductionIn(q: Query, code: Code): Result<real>
  {
    ProductionOf(q.env.production, q.env.directory, code, q.year)
  }

  function Total(q: Query, codes: seq<Code>): Result<real>
  {
    TotalProduction(q.env.production, q.env.directory, codes, q.year)
  }

  /** `extra['Partner Code']`: the partners of `importer` that qualify against `reference`. */
  function Admitted(q: Query, importer: Code, reference: real): (r: seq<Code>)
    ensures NoDuplicates(r)
  {
    EntryCodes(Parse(q.env.trade(importer, q.year), reference, q.tMarket).kept)
  }

  /** A partner is admitted exactly when it has non-world rows whose summed weight qualifies. */
  lemma AdmittedMeaning(q: Query, importer: Code, reference: real, c: Code)
    ensures var rows := q.env.trade(importer, q.year);
            c in Admitted(q, importer, reference) <==>
              (exists i :: 0 <= i < |rows| && rows[i].partnerCode == c && rows[i].partnerIso != World) &&
              Qualifies(WeightOf(NotWorld(rows), c), reference, q.tMarket)
  {
    var rows := q.env.trade(importer, q.year);
    var p := Parse(rows, reference, q.tMarket);
    ParseMeaning(rows, reference, q.tMarket, c);
    EntryCodesMember(p.kept, c);
    EntryCodesMember(p.table, c);
  }

  /** Some market of `queried` admitted `x` against `reference`. */
  ghost predicate AdmittedBy(q: Query, reference: real, queried: seq<Code>, x: Code)
  {
    exists m :: m in queried && x in Admitted(q, m, reference)
  }

  /** The two lists the inner `for m in iteration_codes` loop extends. */
  datatype Scan = Scan(checked: seq<Code>, staged: seq<Code>)

  /**
   * The inner loop of one round: each frontier code not yet checked is
   * marked checked and queried against the round's reference production,
   * and its qualifying partners that are neither found nor already staged
   * this round are staged (`new_extras`).
   */
  function ScanFrontier(q: Query, reference: real, found: seq<Code>, frontier: seq<Code>,
                        checked: seq<Code>, staged: seq<Code>): Scan
    decreases |frontier|
  {
    if frontier == [] then Scan(checked, staged)
    else
      var m := frontier[0];
      if m in checked then ScanFrontier(q, reference, found, frontier[1..], checked, staged)
      else
        var toAdd := Without(Admitted(q, m, reference), found + staged);
        ScanFrontier(q, reference, found, frontier[1..], checked + [m], staged + toAdd)
  }

  /** One step of the inner loop: skip a checked code, or check it and stage its new partners. */
  lemma ScanStep(q: Query, reference: real, found: seq<Code>, frontier: seq<Code>,
                 checked: seq<Code>, staged: seq<Code>)
    requires frontier != []
    ensures var m := frontier[0];
            ScanFrontier(q, reference, found, frontier, checked, staged) ==
            if m in checked then ScanFrontier(q, reference, found, frontier[1..], checked, staged)
            else ScanFrontier(q, reference, found, frontier[1..], checked + [m],
                              staged + Without(Admitted(q, m, reference), found + staged))
  {
  }

  /** The inner loop only appends to the checked and staged lists. */
  lemma {:induction false} ScanPrefix(q: Query, reference: real, found: seq<Code>, frontier: seq<Code>,
                                      checked: seq<Code>, staged: seq<Code>)
    ensures var sc := ScanFrontier(q, reference, found, frontier, checked, staged);
            && |checked| <= |sc.checked| && sc.checked[..|checked|] == checked
            && |staged| <= |sc.staged| && sc.staged[..|staged|] == staged
    decreases |frontier|
  {
    if frontier != [] {
      var m := frontier[0];
      if m in checked {
        ScanPrefix(q, reference, found, frontier[1..], checked, staged);
      } else {
        var toAdd := Without(Admitted(q, m, reference), found + staged);
        ScanPrefix(q, reference, found, frontier[1..], checked + [m], staged + toAdd);
        var sc := ScanFrontier(q, reference, found, frontier[1..], checked + [m], staged + toAdd);
        assert sc.checked[..|checked|] == (checked + [m])[..|checked|];
        assert sc.staged[..|staged|] == (staged + toAdd)[..|staged|];
      }
    }
  }

  /**
   * The inner loop marks checked exactly the frontier codes not checked
   * before, each once: a code is queried only if it is not yet checked, and
   * it is appended to the checked list as it is queried.
   */
  lemma {:induction false} ScanChecked(q: Query, reference: real, found: seq<Code>, frontier: seq<Code>,
                                       checked: seq<Code>, staged: seq<Code>)
    requires NoDuplicates(checked)
    ensures var sc := ScanFrontier(q, reference, found, frontier, checked, staged);
            && NoDuplicates(sc.checked)
            && (forall x :: x in sc.checked <==> x in checked || x in frontier)
    decreases |frontier|
  {
    if frontier != [] {
      var m := frontier[0];
      if m in checked {
        ScanChecked(q, reference, found, frontier[1..], checked, staged);
      } else {
        var toAdd := Without(Admitted(q, m, reference), found + staged);
        ScanChecked(q, reference, found, frontier[1..], checked + [m], staged + toAdd);
      }
    }
  }

  /** What the inner loop stages is free of duplicates and new to the found list. */
  lemma {:induction false} ScanStaged(q: Query, reference: real, found: seq<Code>, frontier: seq<Code>,
                                      checked: seq<Code>, staged: seq<Code>)
    requires NoDuplicates(staged)
    requires forall x :: x in staged ==> x !in found
    ensures var sc := ScanFrontier(q, reference, found, frontier, checked, staged);
            && NoDuplicates(sc.staged)
            && (forall x :: x in sc.staged ==> x !in found)
    decreases |frontier|
  {
    if frontier != [] {
      var m := frontier[0];
      if m in checked {
        ScanStaged(q, reference, found, frontier[1..], checked, staged);
      } else {
        var toAdd := Without(Admitted(q, m, reference), found + staged);
        var staged' := staged + toAdd;
        assert NoDuplicates(staged') by {
          forall i, j | 0 <= i < j < |staged'|
            ensures staged'[i] != staged'[j]
          {
            if i < |staged| <= j {
              assert staged'[j] in toAdd;
              assert staged'[i] in staged;
            } else if |staged| <= i {
              assert staged'[i] == toAdd[i - |staged|] && staged'[j] == toAdd[j - |staged|];
            }
          }
        }
        ScanStaged(q, reference, found, frontier[1..], checked + [m], staged');
      }
    }
  }

  /** Every code the inner loop stages was admitted by one of the codes it queried. */
  lemma {:induction false} ScanSound(q: Query, reference: real, found: seq<Code>, frontier: seq<Code>,
                                     checked: seq<Code>, staged: seq<Code>)
    ensures var sc := ScanFrontier(q, reference, found, frontier, checked, staged);
            |checked| <= |sc.checked| &&
            forall x :: x in sc.staged && x !in staged ==> AdmittedBy(q, reference, sc.checked[|checked|..], x)
    decreases |frontier|
  {
    ScanPrefix(q, reference, found, frontier, checked, staged);
    if frontier != [] {
      var m := frontier[0];
      if m in checked {
        ScanSound(q, reference, found, frontier[1..], checked, staged);
      } else {
        var toAdd := Without(Admitted(q, m, reference), found + staged);
        var checked', staged' := checked + [m], staged + toAdd;
        ScanSound(q, reference, found, frontier[1..], checked', staged');
        ScanPrefix(q, reference, found, frontier[1..], checked', staged');
        var sc := ScanFrontier(q, reference, found, frontier[1..], checked', staged');
        var queried := sc.checked[|checked|..];
        assert sc.checked[..|checked'|][|checked|] == m;
        assert queried[0] == m;
        assert queried[1..] == sc.checked[|checked'|..];
        forall x | x in sc.staged && x !in staged
          ensures AdmittedBy(q, reference, queried, x)
        {
          if x in staged' {
            assert x in toAdd;
            assert m in queried;
          } else {
            var m' :| m' in sc.checked[|checked'|..] && x in Admitted(q, m', reference);
            assert m' in queried;
          }
        }
      }
    }
  }

  /** Every code admitted by a code the inner loop queried ends up found or staged. */
  lemma {:induction false} ScanComplete(q: Query, reference: real, found: seq<Code>, frontier: seq<Code>,
                                        checked: seq<Code>, staged: seq<Code>)
    ensures var sc := ScanFrontier(q, reference, found, frontier, checked, staged);
            |checked| <= |sc.checked| &&
            forall m, x :: m in sc.checked[|checked|..] && x in Admitted(q, m, reference) ==>
              x in found || x in sc.staged
    decreases |frontier|
  {
    ScanPrefix(q, reference, found, frontier, checked, staged);
    if frontier != [] {
      var m := frontier[0];
      if m in checked {
        ScanComplete(q, reference, found, frontier[1..], checked, staged);
      } else {
        var toAdd := Without(Admitted(q, m, reference), found + staged);
        var checked', staged' := checked + [m], staged + toAdd;
        ScanComplete(q, reference, found, frontier[1..], checked', staged');
        ScanPrefix(q, reference, found, frontier[1..], checked', staged');
        var sc := ScanFrontier(q, reference, found, frontier[1..], checked', staged');
        var queried := sc.checked[|checked|..];
        assert sc.checked[..|checked'|][|checked|] == m;
        assert queried[0] == m;
        assert queried[1..] == sc.checked[|checked'|..];
        assert forall y :: y in staged' ==> y in sc.staged by {
          forall y | y in staged'
            ensures y in sc.staged
          {
            var k :| 0 <= k < |staged'| && staged'[k] == y;
            assert sc.staged[k] == y;
          }
        }
        forall x | x in Admitted(q, m, reference)
          ensures x in found || x in sc.staged
        {
          if x !in found && x !in staged {
            assert x in toAdd;
          }
        }
        forall m1, x | m1 in queried && x in Admitted(q, m1, reference)
          ensures x in found || x in sc.staged
        {
          if m1 != m {
            assert m1 in sc.checked[|checked'|..];
          }
        }
      }
    }
  }

  /**
   * One pass of the `while` loop: scan the frontier, add the production of
   * what was staged to the running reference (`+=`, never reset), and make
   * the staged codes the next frontier.
   */
  function Round(q: Query, st: Expansion): (r: Result<Expansion>)
    ensures r.Ok? ==> r.value.round == st.round + 1
  {
    Advance(q, st, ScanFrontier(q, st.reference, st.found, st.frontier, st.checked, []))
  }

  /** The end of a pass, given its scan. */
  function Advance(q: Query, st: Expansion, sc: Scan): Result<Expansion>
  {
    match Total(q, sc.staged)
    case Err(e) => Err(e)
    case Ok(p) => Ok(Expansion(st.found + sc.staged, sc.checked, sc.staged, st.reference + p, st.round + 1))
  }

  /** `while len(to_check) > 0 and i < stop_n`. */
  function Expand(q: Query, st: Expansion): Result<Expansion>
    decreases StopN - st.round
  {
    if Without(st.found, st.checked) != [] && st.round < StopN then
      match Round(q, st)
      case Err(e) => Err(e)
      case Ok(next) => Expand(q, next)
    else Ok(st)
  }

  /** A round ends as its scan leaves it. */
  lemma RoundOf(q: Query, st: Expansion, sc: Scan)
    requires ScanFrontier(q, st.reference, st.found, st.frontier, st.checked, []) == sc
    ensures Round(q, st) == Advance(q, st, sc)
  {
  }

  /** The end of a round whose production total succeeded. */
  lemma AdvanceOf(q: Query, st: Expansion, sc: Scan, p: real)
    requires Total(q, sc.staged) == Ok(p)
    ensures Advance(q, st, sc) == Ok(Expansion(st.found + sc.staged, sc.checked, sc.staged, st.reference + p, st.round + 1))
  {
  }

  /** While the loop guard holds, the loop ends as it would from the state the next round leaves. */
  lemma ExpandStep(q: Query, st: Expansion, next: Expansion)
    requires Without(st.found, st.checked) != [] && st.round < StopN
    requires Round(q, st) == Ok(next)
    ensures Expand(q, st) == Expand(q, next)
  {
  }

  /**
   * Round 1: the seed is looked up by name, queried against its own
   * production, and every partner that qualifies is appended to the found
   * markets with no check against them. The next reference is the total
   * production of those partners.
   */
  function FirstRound(q: Query, seed: Name): Result<Expansion>
  {
    match CodeOf(q.env.directory, seed)
    case Err(e) => Err(e)
    case Ok(code) =>
      match ProductionIn(q, code)
      case Err(e) => Err(e)
      case Ok(own) =>
        var admitted := Admitted(q, code, own);
        match Total(q, admitted)
        case Err(e) => Err(e)
        case Ok(p) => Ok(Expansion([code] + admitted, [code], admitted, p, 1))
  }

  /** `[self._get_country_name(x) for x in codes]`: the first code with no name raises. */
  function Names(d: Directory, codes: seq<Code>): Result<seq<Name>>
  {
    if codes == [] then Ok([])
    else
      match NameOf(d, codes[0])
      case Err(e) => Err(e)
      case Ok(n) =>
        match Names(d, codes[1..])
        case Err(e) => Err(e)
        case Ok(ns) => Ok([n] + ns)
  }

  /** The names are found exactly when every code has one, and then they line up with the codes. */
  lemma {:induction false} NamesMeaning(d: Directory, codes: seq<Code>)
    ensures Names(d, codes).Ok? <==> forall i :: 0 <= i < |codes| ==> NameOf(d, codes[i]).Ok?
    ensures Names(d, codes).Ok? ==>
              var ns := Names(d, codes).value;
              && |ns| == |codes|
              && forall i :: 0 <= i < |codes| ==> NameOf(d, codes[i]) == Ok(ns[i])
  {
    if codes != [] {
      NamesMeaning(d, codes[1..]);
      assert forall i :: 1 <= i < |codes| ==> codes[i] == codes[1..][i - 1];
    }
  }

  /** `find_markets(year, tMarket)` for the seed market `seed`. */
  function FindMarkets(q: Query, seed: Name): Result<Markets>
  {
    match FirstRound(q, seed)
    case Err(e) => Err(e)
    case Ok(start) =>
      match Expand(q, start)
      case Err(e) => Err(e)
      case Ok(last) =>
        match Names(q.env.directory, last.found)
        case Err(e) => Err(e)
        case Ok(names) => Ok(Markets(last.found, names))
  }

  /**
   * What holds of the lists between rounds: the seed stays first; every
   * checked code is found and checked once; a found code not yet checked
   * waits in the frontier; the round counter stays within `stop_n`; and the
   * reference production is the total production of every market admitted
   * so far except the seed entry at index 0.
   */
  ghost predicate Inv(q: Query, seed: Code, st: Expansion)
  {
    && |st.found| >= 1 && st.found[0] == seed
    && 1 <= st.round <= StopN
    && NoDuplicates(st.checked)
    && (forall x :: x in st.checked ==> x in st.found)
    && (forall x :: x in st.frontier ==> x in st.found)
    && (forall x :: x in st.found && x !in st.checked ==> x in st.frontier)
    && Total(q, st.found[1..]) == Ok(st.reference)
  }

  /** After round 1 the lists are in the shape `Inv` describes. */
  lemma FirstRoundFacts(q: Query, seed: Name)
    requires FirstRound(q, seed).Ok?
    ensures CodeOf(q.env.directory, seed).Ok?
    ensures var code := CodeOf(q.env.directory, seed).value;
            var st := FirstRound(q, seed).value;
            && ProductionIn(q, code).Ok?
            && st.frontier == Admitted(q, code, ProductionIn(q, code).value)
            && st.found == [code] + st.frontier
            && st.checked == [code]
            && st.round == 1
            && Inv(q, code, st)
  {
    var code := CodeOf(q.env.directory, seed).value;
    var st := FirstRound(q, seed).value;
    assert st.found[1..] == st.frontier;
  }

  /**
   * Round k >= 2 queries, once each, exactly the frontier codes not checked
   * before, and appends them to the checked list.
   */
  lemma RoundQueries(q: Query, st: Expansion)
    requires NoDuplicates(st.checked)
    requires Round(q, st).Ok?
    ensures var next := Round(q, st).value;
            && |st.checked| <= |next.checked| && next.checked[..|st.checked|] == st.checked
            && NoDuplicates(next.checked)
            && forall x :: x in next.checked[|st.checked|..] <==> x in st.frontier && x !in st.checked
  {
    var next := Round(q, st).value;
    ScanPrefix(q, st.reference, st.found, st.frontier, st.checked, []);
    ScanChecked(q, st.reference, st.found, st.frontier, st.checked, []);
    var queried := next.checked[|st.checked|..];
    forall x
      ensures x in queried <==> x in st.frontier && x !in st.checked
    {
      if x in queried {
        var k :| 0 <= k < |queried| && queried[k] == x;
        assert next.checked[|st.checked| + k] == x;
      }
      if x in st.frontier && x !in st.checked {
        assert x in next.checked;
        var k :| 0 <= k < |next.checked| && next.checked[k] == x;
        assert k >= |st.checked|;
        assert queried[k - |st.checked|] == x;
      }
    }
  }

  /**
   * From round 2 on, the codes a round admits are new to the found list and
   * free of duplicates; each was admitted by a code the round queried,
   * against the reference production the round started with; and every code
   * those queries admitted is found afterwards.
   */
  lemma RoundAdmits(q: Query, st: Expansion)
    requires Round(q, st).Ok?
    ensures var next := Round(q, st).value;
            && |st.checked| <= |next.checked|
            && NoDuplicates(next.frontier)
            && (forall x :: x in next.frontier ==> x !in st.found)
            && (forall x :: x in next.frontier ==> AdmittedBy(q, st.reference, next.checked[|st.checked|..], x))
            && (forall m, x :: m in next.checked[|st.checked|..] && x in Admitted(q, m, st.reference) ==>
                  x in next.found)
  {
    ScanPrefix(q, st.reference, st.found, st.frontier, st.checked, []);
    ScanStaged(q, st.reference, st.found, st.frontier, st.checked, []);
    ScanSound(q, st.reference, st.found, st.frontier, st.checked, []);
    ScanComplete(q, st.reference, st.found, st.frontier, st.checked, []);
  }

  /**
   * One round keeps `Inv`: in particular the reference production grows by
   * exactly the production of the codes the round admitted. Afterwards the
   * found codes still unchecked are exactly the new frontier.
   */
  lemma RoundKeepsInv(q: Query, seed: Code, st: Expansion, next: Expansion)
    requires Inv(q, seed, st) && st.round < StopN
    requires Round(q, st) == Ok(next)
    ensures Inv(q, seed, next)
    ensures Total(q, next.frontier) == Ok(next.reference - st.reference)
    ensures forall x :: x in next.found && x !in next.checked <==> x in next.frontier
  {
    var sc := ScanFrontier(q, st.reference, st.found, st.frontier, st.checked, []);
    RoundOf(q, st, sc);
    ScanChecked(q, st.reference, st.found, st.frontier, st.checked, []);
    ScanStaged(q, st.reference, st.found, st.frontier, st.checked, []);
    AdvanceKeepsInv(q, seed, st, sc, next);
  }

  /**
   * The end of a pass keeps `Inv` when its scan checked exactly the old
   * checked and frontier codes, each once, and staged only codes not yet found.
   */
  lemma AdvanceKeepsInv(q: Query, seed: Code, st: Expansion, sc: Scan, next: Expansion)
    requires Inv(q, seed, st) && st.round < StopN
    requires Advance(q, st, sc) == Ok(next)
    requires NoDuplicates(sc.checked)
    requires forall x :: x in sc.checked <==> x in st.checked || x in st.frontier
    requires forall x :: x in sc.staged ==> x !in st.found
    ensures Inv(q, seed, next)
    ensures Total(q, next.frontier) == Ok(next.reference - st.reference)
    ensures forall x :: x in next.found && x !in next.checked <==> x in next.frontier
  {
    AdvanceTotal(q, st, sc);
    assert next.found == st.found + sc.staged && next.checked == sc.checked && next.frontier == sc.staged;
    assert forall x :: x in next.checked ==> x in st.found;
    assert forall x :: x in st.found ==> x in next.checked;
  }

  /** The reference production grows by the production of the codes a pass admits. */
  lemma AdvanceTotal(q: Query, st: Expansion, sc: Scan)
    requires |st.found| >= 1 && Total(q, st.found[1..]) == Ok(st.reference)
    requires Advance(q, st, sc).Ok?
    ensures var next := Advance(q, st, sc).value;
            && Total(q, next.found[1..]) == Ok(next.reference)
            && Total(q, next.frontier) == Ok(next.reference - st.reference)
  {
    var p := Total(q, sc.staged).value;
    var next := Advance(q, st, sc).value;
    assert next.found == st.found + sc.staged && next.frontier == sc.staged && next.reference == st.reference + p;
    DropFirstAppend(st.found, sc.staged);
    TotalProductionAppend(q.env.production, q.env.directory, st.found[1..], sc.staged, q.year);
    assert Total(q, next.found[1..]) == Plus(Ok(st.reference), Ok(p));
  }

  /**
   * The loop stops within `stop_n` rounds. When it stops without failing,
   * the found list extends the one it started from and either the round
   * counter has reached `stop_n` or every found market has been checked.
   */
  lemma {:induction false} ExpandFacts(q: Query, seed: Code, st: Expansion)
    requires Inv(q, seed, st)
    requires Expand(q, st).Ok?
    ensures var last := Expand(q, st).value;
            && Inv(q, seed, last)
            && st.round <= last.round
            && |st.found| <= |last.found| && last.found[..|st.found|] == st.found
            && (last.round == StopN || forall x :: x in last.found ==> x in last.checked)
    decreases StopN - st.round
  {
    if Without(st.found, st.checked) != [] && st.round < StopN {
      var next := Round(q, st).value;
      RoundKeepsInv(q, seed, st, next);
      ExpandFacts(q, seed, next);
      var last := Expand(q, st).value;
      assert last.found[..|st.found|] == last.found[..|next.found|][..|st.found|];
    } else {
      if st.round != StopN {
        forall x | x in st.found
          ensures x in st.checked
        {
          assert x !in Without(st.found, st.checked);
        }
      }
    }
  }

  /**
   * A successful `find_markets` returns the seed's code first, extending the
   * list round 1 produced, with one name per code as the directory gives it;
   * the rounds that produced it left every market checked or hit the cap.
   */
  lemma FindMarketsFacts(q: Query, seed: Name)
    requires FindMarkets(q, seed).Ok?
    ensures CodeOf(q.env.directory, seed).Ok? && FirstRound(q, seed).Ok?
    ensures Expand(q, FirstRound(q, seed).value).Ok?
    ensures var m := FindMarkets(q, seed).value;
            var start := FirstRound(q, seed).value;
            var last := Expand(q, start).value;
            && m.codes == last.found
            && Inv(q, CodeOf(q.env.directory, seed).value, last)
            && |start.found| <= |m.codes| && m.codes[..|start.found|] == start.found
            && |m.names| == |m.codes|
            && (forall i :: 0 <= i < |m.codes| ==> NameOf(q.env.directory, m.codes[i]) == Ok(m.names[i]))
            && (last.round == StopN || forall x :: x in last.found ==> x in last.checked)
            && NoDuplicates(m.codes[1..])
  {
    FirstRoundFacts(q, seed);
    var code := CodeOf(q.env.directory, seed).value;
    var start := FirstRound(q, seed).value;
    ExpandFacts(q, code, start);
    NamesMeaning(q.env.directory, Expand(q, start).value.found);
    assert start.found[1..] == start.frontier;
    ExpandDistinct(q, start);
  }

  /**
   * After its first entry the found list never repeats a code: round 1
   * appends distinct partners, and every later round appends distinct codes
   * new to the list. Only the seed can occur twice, when round 1 admits it.
   */
  lemma {:induction false} ExpandDistinct(q: Query, st: Expansion)
    requires |st.found| >= 1 && NoDuplicates(st.found[1..])
    requires Expand(q, st).Ok?
    ensures var found := Expand(q, st).value.found;
            |found| >= 1 && NoDuplicates(found[1..])
    decreases StopN - st.round
  {
    if Without(st.found, st.checked) != [] && st.round < StopN {
      var next := Round(q, st).value;
      RoundAdmits(q, st);
      RoundAppends(q, st);
      DropFirstAppend(st.found, next.frontier);
      NoDuplicatesAppend(st.found[1..], next.frontier);
      ExpandDistinct(q, next);
    }
  }

  /** A round appends its new frontier to the found list. */
  lemma RoundAppends(q: Query, st: Expansion)
    requires Round(q, st).Ok?
    ensures Round(q, st).value.found == st.found + Round(q, st).value.frontier
  {
    var sc := ScanFrontier(q, st.reference, st.found, st.frontier, st.checked, []);
    RoundOf(q, st, sc);
  }
}
