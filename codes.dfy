/**
 * The country-name / trade-area-code directory (`_get_codes`,
 * `_get_country_code`, `_get_country_name`): a dict from name to code built
 * from the partner-area list, looked up directly by name and, by code,
 * through its inversion rebuilt on every call.
 */
module CodeDirectory {
  import opened Types
  import opened Seqs
  import opened Dicts

  /** One entry `{text: name, id: code}` of the partner-area list. */
  datatype Area = Area(text: Name, id: Code)

  type Directory = Dict<Name, Code>

  function AreaPairs(areas: seq<Area>): (ps: seq<(Name, Code)>)
    ensures |ps| == |areas|
    ensures forall i :: 0 <= i < |areas| ==> ps[i] == (areas[i].text, areas[i].id)
  {
    seq(|areas|, i requires 0 <= i < |areas| => (areas[i].text, areas[i].id))
  }

  /** `{x['text']: x['id'] for x in areas}`. */
  function BuildDirectory(areas: seq<Area>): (d: Directory)
    ensures Keyed(d)
  {
    FromPairsKeyed(AreaPairs(areas));
    FromPairs(AreaPairs(areas))
  }

  /** The codes that some name maps to. */
  function Codes(d: Directory): seq<Code>
  {
    Keys(Swapped(d))
  }

  /** `_get_country_code`: a plain lookup that raises for an unknown name. */
  function CodeOf(d: Directory, name: Name): (r: Result<Code>)
    ensures r.Err? <==> name !in Keys(d)
    ensures r.Err? ==> r.error == UnknownName(name)
    ensures r.Ok? ==> (name, r.value) in d
  {
    match Get(d, name)
    case None => Err(UnknownName(name))
    case Some(c) => Ok(c)
  }

  /** `_get_country_name`: a lookup in the inverted dict that raises for an unknown code. */
  function NameOf(d: Directory, code: Code): (r: Result<Name>)
    ensures r.Err? ==> r.error == UnknownCode(code)
  {
    match Get(Invert(d), code)
    case None => Err(UnknownCode(code))
    case Some(n) => Ok(n)
  }

  /** When the partner-area list names a country twice, its last entry decides its code. */
  lemma CodeOfLastEntry(areas: seq<Area>, name: Name, code: Code)
    ensures CodeOf(BuildDirectory(areas), name) == Ok(code) <==>
            exists i :: 0 <= i < |areas| && areas[i] == Area(name, code) &&
                        forall j :: i < j < |areas| ==> areas[j].text != name
    ensures CodeOf(BuildDirectory(areas), name).Err? <==>
            forall i :: 0 <= i < |areas| ==> areas[i].text != name
  {
    CodeOfFound(areas, name, code);
    CodeOfMissing(areas, name);
  }

  lemma CodeOfFound(areas: seq<Area>, name: Name, code: Code)
    ensures CodeOf(BuildDirectory(areas), name) == Ok(code) <==>
            exists i :: 0 <= i < |areas| && areas[i] == Area(name, code) &&
                        forall j :: i < j < |areas| ==> areas[j].text != name
  {
    var ps := AreaPairs(areas);
    assert BuildDirectory(areas) == FromPairs(ps);
    GetFromPairs(ps, name);
    LastValueAt(ps, name, code);
    assert forall i :: 0 <= i < |areas| ==> ps[i].0 == areas[i].text && (ps[i] == (name, code) <==> areas[i] == Area(name, code));
  }

  lemma CodeOfMissing(areas: seq<Area>, name: Name)
    ensures CodeOf(BuildDirectory(areas), name).Err? <==>
            forall i :: 0 <= i < |areas| ==> areas[i].text != name
  {
    var ps := AreaPairs(areas);
    assert BuildDirectory(areas) == FromPairs(ps);
    GetFromPairs(ps, name);
    LastValueNone(ps, name);
    assert forall i :: 0 <= i < |areas| ==> ps[i].0 == areas[i].text;
  }

  /** When two names share a code, the reverse lookup gives the later of them in dict order. */
  lemma NameOfLastEntry(d: Directory, code: Code, name: Name)
    ensures NameOf(d, code) == Ok(name) <==>
            exists i :: 0 <= i < |d| && d[i] == (name, code) &&
                        forall j :: i < j < |d| ==> d[j].1 != code
    ensures NameOf(d, code).Err? <==> code !in Codes(d)
  {
    var ps := Swapped(d);
    InvertIsFromPairs(d);
    GetFromPairs(ps, code);
    LastValueAt(ps, code, name);
    LastValueNone(ps, code);
  }

  /** A name found for a code maps back to that code. */
  lemma NameOfThenCodeOf(d: Directory, code: Code, name: Name)
    requires Keyed(d)
    requires NameOf(d, code) == Ok(name)
    ensures CodeOf(d, name) == Ok(code)
  {
    NameOfLastEntry(d, code, name);
    GetStored(d, name, code);
  }

  /** When no two names share a code, a code found for a name maps back to that name. */
  lemma CodeOfThenNameOf(d: Directory, name: Name, code: Code)
    requires NoDuplicates(Codes(d))
    requires CodeOf(d, name) == Ok(code)
    ensures NameOf(d, code) == Ok(name)
  {
    var i :| 0 <= i < |d| && d[i] == (name, code);
    forall j | i < j < |d|
      ensures d[j].1 != code
    {
      assert Codes(d)[i] == code;
    }
    NameOfLastEntry(d, code, name);
  }
}
