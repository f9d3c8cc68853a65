/**
 * The filtering half of `_parse_comtrade_data`: drop the world-aggregate
 * partner rows, sum net weight per partner, and keep the partners whose
 * share of the reference production exceeds `tMarket`.
 */
module ShareFilter {
  import opened Types
  import opened Seqs

  /** One row of a reporter's import response: its partner and the net weight (kg). */
  datatype Row = Row(partnerIso: string, partnerCode: Code, netWeight: real)

  /** One row of the per-partner table: a partner and its summed net weight. */
  datatype Entry = Entry(partnerCode: Code, netWeight: real)

  /** The full per-partner table and the partners that qualify as markets. */
  datatype Parsed = Parsed(table: seq<Entry>, kept: seq<Entry>)

  /** The ISO code Comtrade gives the world-aggregate partner. */
  const World: string := "WLD"

  /** The rows whose partner is not the world aggregate, in their original order. */
  function NotWorld(rows: seq<Row>): (r: seq<Row>)
    ensures forall x :: Count(r, x) == if x.partnerIso == World then 0 else Count(rows, x)
  {
    if rows == [] then []
    else
      var n := |rows| - 1;
      var r := NotWorld(rows[..n]);
      if rows[n].partnerIso == World then r
      else
        assert (r + [rows[n]])[..|r|] == r;
        r + [rows[n]]
  }

  /** The partner column of the fetched rows, one code per row, repeats included. */
  function RowCodes(rows: seq<Row>): (cs: seq<Code>)
    ensures |cs| == |rows|
    ensures forall i :: 0 <= i < |rows| ==> cs[i] == rows[i].partnerCode
  {
    seq(|rows|, i requires 0 <= i < |rows| => rows[i].partnerCode)
  }

  /**
   * The partner column of the grouped table, one code per partner. `Row`
   * and `Entry` are different datatypes, and Dafny has no structural
   * projection shared by both, so each gets its own column function.
   */
  function EntryCodes(table: seq<Entry>): (cs: seq<Code>)
    ensures |cs| == |table|
    ensures forall i :: 0 <= i < |table| ==> cs[i] == table[i].partnerCode
  {
    seq(|table|, i requires 0 <= i < |table| => table[i].partnerCode)
  }

  /** A code is listed exactly when some entry carries it. */
  lemma EntryCodesMember(table: seq<Entry>, c: Code)
    ensures c in EntryCodes(table) <==> exists e :: e in table && e.partnerCode == c
  {
    if c in EntryCodes(table) {
      var i :| 0 <= i < |table| && EntryCodes(table)[i] == c;
      assert table[i] in table;
    }
    if exists e :: e in table && e.partnerCode == c {
      var e :| e in table && e.partnerCode == c;
      var i :| 0 <= i < |table| && table[i] == e;
      assert EntryCodes(table)[i] == c;
    }
  }

  /** The summed net weight of the rows for partner `c`. */
  function WeightOf(rows: seq<Row>, c: Code): real
  {
    if rows == [] then 0.0
    else
      var n := |rows| - 1;
      WeightOf(rows[..n], c) + (if rows[n].partnerCode == c then rows[n].netWeight else 0.0)
  }

  /** Summing per partner does not depend on how the rows are split. */
  lemma {:induction false} WeightOfAppend(a: seq<Row>, b: seq<Row>, c: Code)
    ensures WeightOf(a + b, c) == WeightOf(a, c) + WeightOf(b, c)
    decreases |b|
  {
    if b == [] {
      assert a + b == a;
    } else {
      var n := |b| - 1;
      assert (a + b)[..|a + b| - 1] == a + b[..n];
      WeightOfAppend(a, b[..n], c);
    }
  }

  /** The rows of a partner that has no row contribute nothing. */
  lemma {:induction false} WeightOfAbsent(rows: seq<Row>, c: Code)
    requires c !in RowCodes(rows)
    ensures WeightOf(rows, c) == 0.0
  {
    if rows != [] {
      var n := |rows| - 1;
      assert RowCodes(rows[..n]) == RowCodes(rows)[..n];
      WeightOfAbsent(rows[..n], c);
    }
  }

  /** Group the rows by partner and sum their net weight, one entry per partner. */
  function Aggregate(rows: seq<Row>): (table: seq<Entry>)
    ensures NoDuplicates(EntryCodes(table))
    ensures forall c :: c in EntryCodes(table) <==> c in RowCodes(rows)
    ensures forall i :: 0 <= i < |table| ==> table[i].netWeight == WeightOf(rows, table[i].partnerCode)
  {
    var cs := Distinct(RowCodes(rows));
    var table := seq(|cs|, i requires 0 <= i < |cs| => Entry(cs[i], WeightOf(rows, cs[i])));
    assert EntryCodes(table) == cs;
    table
  }

  /**
   * `weight / production > tMarket`, decided exactly. A positive weight
   * over a zero production is an infinite share and qualifies; a zero weight
   * over it is not a number and does not; a negative production reverses
   * the comparison.
   */
  predicate Qualifies(weight: real, production: real, tMarket: real)
  {
    if production >= 0.0 then weight > tMarket * production else weight < tMarket * production
  }

  /** The test is the share comparison wherever the share is a number. */
  lemma QualifiesIsShareTest(weight: real, production: real, tMarket: real)
    ensures production != 0.0 ==> (Qualifies(weight, production, tMarket) <==> weight / production > tMarket)
    ensures production == 0.0 ==> (Qualifies(weight, production, tMarket) <==> weight > 0.0)
  {
    if production > 0.0 {
      assert weight / production * production == weight;
      if weight / production > tMarket {
        MultiplyMonotone(weight / production, tMarket, production);
      } else {
        MultiplyMonotone(tMarket, weight / production, production);
      }
    } else if production < 0.0 {
      assert weight / production * production == weight;
      if weight / production > tMarket {
        MultiplyAntitone(weight / production, tMarket, production);
      } else {
        MultiplyAntitone(tMarket, weight / production, production);
      }
    }
  }

  lemma MultiplyMonotone(x: real, y: real, p: real)
    requires p > 0.0 && x >= y
    ensures x * p >= y * p
    ensures x > y ==> x * p > y * p
  {
  }

  lemma MultiplyAntitone(x: real, y: real, p: real)
    requires p < 0.0 && x >= y
    ensures x * p <= y * p
    ensures x > y ==> x * p < y * p
  {
  }

  /** A higher threshold never admits more. */
  lemma QualifiesAntitone(weight: real, production: real, t1: real, t2: real)
    requires t1 <= t2
    requires Qualifies(weight, production, t2)
    ensures Qualifies(weight, production, t1)
  {
    if production > 0.0 {
      MultiplyMonotone(t2, t1, production);
    } else if production < 0.0 {
      MultiplyAntitone(t2, t1, production);
    }
  }

  /** `table[table['Share'] > tMarket]`: the qualifying entries, in table order. */
  function Kept(table: seq<Entry>, production: real, tMarket: real): (kept: seq<Entry>)
    ensures forall e :: e in kept <==> e in table && Qualifies(e.netWeight, production, tMarket)
    ensures NoDuplicates(EntryCodes(table)) ==> NoDuplicates(EntryCodes(kept))
  {
    if table == [] then []
    else
      var n := |table| - 1;
      assert table == table[..n] + [table[n]];
      var k := Kept(table[..n], production, tMarket);
      assert EntryCodes(table[..n]) == EntryCodes(table)[..n];
      if Qualifies(table[n].netWeight, production, tMarket) then
        assert EntryCodes(k + [table[n]]) == EntryCodes(k) + [table[n].partnerCode];
        k + [table[n]]
      else k
  }

  /** `_parse_comtrade_data` after the fetch: the full table and its qualifying rows. */
  function Parse(rows: seq<Row>, production: real, tMarket: real): Parsed
  {
    var table := Aggregate(NotWorld(rows));
    Parsed(table, Kept(table, production, tMarket))
  }

  /**
   * The table has one entry per partner that has a row not for the world
   * aggregate, holding the summed weight of that partner's non-world rows;
   * a partner is kept exactly when it qualifies against the production.
   */
  lemma ParseMeaning(rows: seq<Row>, production: real, tMarket: real, c: Code)
    ensures NoDuplicates(EntryCodes(Parse(rows, production, tMarket).table))
    ensures c in EntryCodes(Parse(rows, production, tMarket).table) <==>
            exists i :: 0 <= i < |rows| && rows[i].partnerCode == c && rows[i].partnerIso != World
    ensures forall e :: e in Parse(rows, production, tMarket).table ==>
              e.netWeight == WeightOf(NotWorld(rows), e.partnerCode)
    ensures forall e :: e in Parse(rows, production, tMarket).kept <==>
              e in Parse(rows, production, tMarket).table && Qualifies(e.netWeight, production, tMarket)
  {
    TableCodes(rows, c);
    TableWeights(rows, production, tMarket);
  }

  lemma TableCodes(rows: seq<Row>, c: Code)
    ensures c in RowCodes(NotWorld(rows)) <==>
            exists i :: 0 <= i < |rows| && rows[i].partnerCode == c && rows[i].partnerIso != World
  {
    var nw := NotWorld(rows);
    if c in RowCodes(nw) {
      var j :| 0 <= j < |nw| && nw[j].partnerCode == c;
      assert Count(nw, nw[j]) > 0;
      var i :| 0 <= i < |rows| && rows[i] == nw[j];
    }
    if exists i :: 0 <= i < |rows| && rows[i].partnerCode == c && rows[i].partnerIso != World {
      var i :| 0 <= i < |rows| && rows[i].partnerCode == c && rows[i].partnerIso != World;
      assert Count(rows, rows[i]) > 0;
      assert Count(nw, rows[i]) > 0;
      assert c in RowCodes(nw);
    }
  }

  lemma TableWeights(rows: seq<Row>, production: real, tMarket: real)
    ensures forall e :: e in Parse(rows, production, tMarket).table ==>
              e.netWeight == WeightOf(NotWorld(rows), e.partnerCode)
  {
    var table := Parse(rows, production, tMarket).table;
    forall e | e in table
      ensures e.netWeight == WeightOf(NotWorld(rows), e.partnerCode)
    {
      var i :| 0 <= i < |table| && table[i] == e;
    }
  }

  /** Raising the threshold keeps a subset of the partners. */
  lemma KeptShrinks(rows: seq<Row>, production: real, t1: real, t2: real)
    requires t1 <= t2
    ensures forall e :: e in Parse(rows, production, t2).kept ==> e in Parse(rows, production, t1).kept
  {
    forall e | e in Parse(rows, production, t2).kept
      ensures e in Parse(rows, production, t1).kept
    {
      QualifiesAntitone(e.netWeight, production, t1, t2);
    }
  }
}
