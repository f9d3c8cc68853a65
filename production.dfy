/**
 * The production table (`_get_production_amount`): one row per trade area,
 * keyed by its `Comtrade_No`, with one volume column per year.
 */
module Production {
  import opened Types
  import opened Dicts
  import opened CodeDirectory

  datatype ProductionRow = ProductionRow(comtradeNo: Code, volume: map<Year, real>)

  /** The first row whose `Comtrade_No` is `code`. */
  function FirstRow(rows: seq<ProductionRow>, code: Code): (r: Option<ProductionRow>)
    ensures r.Some? ==> r.value in rows && r.value.comtradeNo == code
  {
    if rows == [] then None
    else if rows[0].comtradeNo == code then Some(rows[0])
    else FirstRow(rows[1..], code)
  }

  /**
   * The production of `code` in `year`. A code with no row yields 0 without
   * failing, although the warning printed for it looks its name up, and that
   * lookup raises for a code the directory does not know. A code with a row
   * reads the year's column of its first row, which raises when the table has
   * no column for that year.
   */
  function ProductionOf(rows: seq<ProductionRow>, d: Directory, code: Code, year: Year): (r: Result<real>)
    ensures r.Err? ==> r.error in {MissingYear(year), UnknownCode(code)}
  {
    match FirstRow(rows, code)
    case Some(row) =>
      if year in row.volume then Ok(row.volume[year]) else Err(MissingYear(year))
    case None =>
      match NameOf(d, code)
      case Ok(_) => Ok(0.0)
      case Err(e) => Err(e)
  }

  /** A code that has a row reads the year's column of the first such row. */
  lemma {:induction false} ProductionOfFirstRow(rows: seq<ProductionRow>, d: Directory, code: Code, year: Year, i: nat)
    requires i < |rows| && rows[i].comtradeNo == code
    requires forall j :: 0 <= j < i ==> rows[j].comtradeNo != code
    ensures ProductionOf(rows, d, code, year) ==
            if year in rows[i].volume then Ok(rows[i].volume[year]) else Err(MissingYear(year))
  {
    if i > 0 {
      ProductionOfFirstRow(rows[1..], d, code, year, i - 1);
    }
  }

  /** A code without a row has production 0, provided the directory can name it. */
  lemma {:induction false} ProductionOfAbsent(rows: seq<ProductionRow>, d: Directory, code: Code, year: Year)
    requires forall i :: 0 <= i < |rows| ==> rows[i].comtradeNo != code
    ensures ProductionOf(rows, d, code, year) ==
            if code in Codes(d) then Ok(0.0) else Err(UnknownCode(code))
  {
    assert FirstRow(rows, code).None? by {
      NoRowNoFirst(rows, code);
    }
    NameOfLastEntry(d, code, "");
  }

  lemma {:induction false} NoRowNoFirst(rows: seq<ProductionRow>, code: Code)
    requires forall i :: 0 <= i < |rows| ==> rows[i].comtradeNo != code
    ensures FirstRow(rows, code).None?
  {
    if rows != [] {
      NoRowNoFirst(rows[1..], code);
    }
  }

  /** Adding two amounts that may have failed: the left failure wins, then the right one. */
  function Plus(x: Result<real>, y: Result<real>): Result<real>
  {
    match x
    case Err(e) => Err(e)
    case Ok(a) =>
      match y
      case Err(e) => Err(e)
      case Ok(b) => Ok(a + b)
  }

  /**
   * `sum([self._get_production_amount(x, year) for x in codes])`: the
   * lookups run left to right and the first one that raises ends the sum.
   */
  function TotalProduction(rows: seq<ProductionRow>, d: Directory, codes: seq<Code>, year: Year): Result<real>
  {
    if codes == [] then Ok(0.0)
    else Plus(ProductionOf(rows, d, codes[0], year), TotalProduction(rows, d, codes[1..], year))
  }

  /** The total over two lists in a row adds up, failing with the first failure. */
  lemma {:induction false} TotalProductionAppend(rows: seq<ProductionRow>, d: Directory, a: seq<Code>, b: seq<Code>, year: Year)
    ensures TotalProduction(rows, d, a + b, year) ==
            Plus(TotalProduction(rows, d, a, year), TotalProduction(rows, d, b, year))
  {
    if a == [] {
      assert a + b == b;
    } else {
      assert (a + b)[0] == a[0];
      assert (a + b)[1..] == a[1..] + b;
      TotalProductionAppend(rows, d, a[1..], b, year);
      PlusAssociative(ProductionOf(rows, d, a[0], year), TotalProduction(rows, d, a[1..], year),
                      TotalProduction(rows, d, b, year));
    }
  }

  lemma PlusAssociative(x: Result<real>, y: Result<real>, z: Result<real>)
    ensures Plus(x, Plus(y, z)) == Plus(Plus(x, y), z)
  {
  }

  /** The total succeeds exactly when every lookup in it does. */
  lemma {:induction false} TotalProductionOk(rows: seq<ProductionRow>, d: Directory, codes: seq<Code>, year: Year)
    ensures TotalProduction(rows, d, codes, year).Ok? <==>
            forall i :: 0 <= i < |codes| ==> ProductionOf(rows, d, codes[i], year).Ok?
  {
    if codes != [] {
      TotalProductionOk(rows, d, codes[1..], year);
      assert forall i :: 1 <= i < |codes| ==> codes[i] == codes[1..][i - 1];
    }
  }
}
