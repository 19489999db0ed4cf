/** Resolution of the geographic labels of the spreadsheets: the lookup
    tables `_build_geo_lookup` fills from the region and department tables,
    and `_resolve_geo`, which tries an exact department name, then an exact
    region name, then the first department and then the first region whose
    normal name contains the label or is contained in it. Regions and
    departments are known by their primary keys. */
module GeoLookup {
  import opened Wrappers
  import opened Text
  import opened Dicts
  import opened Normalization

  /** The `(region, department, commune)` triple `_resolve_geo` returns. */
  datatype GeoRef = GeoRef(region: Option<nat>, department: Option<nat>, commune: Option<nat>)

  const NoGeo := GeoRef(None, None, None)

  /** Labels that stand for the whole country. */
  const National: set<string> := {"SENEGAL", "TOTAL", "NATIONAL"}

  /** The frequent spellings `_build_geo_lookup` maps onto a region's name. */
  const Aliases: seq<(string, string)> :=
    [("ST LOUIS", "SAINT LOUIS"), ("THIES", "THIES"), ("KEDOUGOU", "KEDOUGOU"),
     ("ZIGUINCHOR", "ZIGUINCHOR"), ("SENEGAL", "SENEGAL")]

  // ---------------------------------------------------------------------------
  // The lookup tables
  // ---------------------------------------------------------------------------

  function RowKey(row: (nat, string)): string { Normalize(row.1) }
  function RowId(row: (nat, string)): nat { row.0 }

  /** `by_name[_normalize(row.name)] = row` over the rows `(pk, name)` in
      table order. */
  function NameIndex(rows: seq<(nat, string)>): Dict<string, nat> {
    Index(rows, RowKey, RowId)
  }

  /** One alias: when the target's key is bound, the source's key is bound
      to the same row. */
  function AliasStep(d: Dict<string, nat>, alias: (string, string), norm: string -> string): Dict<string, nat> {
    match Get(d, norm(alias.1))
    case Some(r) => Put(d, norm(alias.0), r)
    case None => d
  }

  function ApplyAliases(d: Dict<string, nat>, aliases: seq<(string, string)>, norm: string -> string): Dict<string, nat> {
    if aliases == [] then d
    else AliasStep(ApplyAliases(d, aliases[..|aliases| - 1], norm), aliases[|aliases| - 1], norm)
  }

  /** After an alias whose target is bound, the source is bound to the
      target's row and every other key keeps its row. */
  lemma AliasStepBinds(d: Dict<string, nat>, alias: (string, string), norm: string -> string, q: string)
    requires Get(d, norm(alias.1)).Some?
    ensures Get(AliasStep(d, alias, norm), norm(alias.0)) == Get(d, norm(alias.1))
    ensures q != norm(alias.0) ==> Get(AliasStep(d, alias, norm), q) == Get(d, q)
  {
    var r := Get(d, norm(alias.1)).value;
    GetPut(d, norm(alias.0), r, norm(alias.0));
    GetPut(d, norm(alias.0), r, q);
  }

  /** An alias onto itself changes no lookup. */
  lemma SelfAliasInvisible(d: Dict<string, nat>, x: string, norm: string -> string, q: string)
    ensures Get(AliasStep(d, (x, x), norm), q) == Get(d, q)
  {
    if Get(d, norm(x)).Some? {
      GetPut(d, norm(x), Get(d, norm(x)).value, q);
    }
  }

  /** The normal name of some row is bound exactly when a row has it, and it
      is bound to the last such row. */
  lemma NameIndexGet(rows: seq<(nat, string)>, key: string)
    ensures Get(NameIndex(rows), key).Some? <==> exists k :: 0 <= k < |rows| && Normalize(rows[k].1) == key
    ensures Get(NameIndex(rows), key).Some? ==>
      exists k ::
        && 0 <= k < |rows|
        && Normalize(rows[k].1) == key
        && rows[k].0 == Get(NameIndex(rows), key).value
        && forall j :: k < j < |rows| ==> Normalize(rows[j].1) != key
  {
    IndexGet(rows, RowKey, RowId, key);
  }

  /** Every key is a normal form and keys are distinct. */
  lemma NameIndexShape(rows: seq<(nat, string)>)
    ensures DistinctKeys(NameIndex(rows))
    ensures forall i :: 0 <= i < |NameIndex(rows)| ==> Canonical(NameIndex(rows)[i].0)
  {
    IndexShape(rows, RowKey, RowId);
    forall i | 0 <= i < |NameIndex(rows)| ensures Canonical(NameIndex(rows)[i].0) {
      var j :| 0 <= j < |rows| && RowKey(rows[j]) == NameIndex(rows)[i].0;
      NormalizeCanonical(rows[j].1);
    }
  }

  // ---------------------------------------------------------------------------
  // Resolution
  // ---------------------------------------------------------------------------

  /** `key in label or label in key`. */
  predicate Overlaps(key: string, name: string) {
    Contains(name, key) || Contains(key, name)
  }

  /** The first entry from index `i` on whose key overlaps the label. */
  function Fuzzy(name: string, d: Dict<string, nat>, i: nat): (r: Option<nat>)
    ensures r.None? ==> forall k :: i <= k < |d| ==> !Overlaps(d[k].0, name)
    ensures r.Some? ==>
      exists k :: i <= k < |d| && Overlaps(d[k].0, name) && d[k].1 == r.value
        && forall j :: i <= j < k ==> !Overlaps(d[j].0, name)
    decreases |d| - i
  {
    if i >= |d| then None
    else if Overlaps(d[i].0, name) then Some(d[i].1)
    else Fuzzy(name, d, i + 1)
  }

  /** `_resolve_geo(raw_label)` against the tables. */
  function ResolveGeo(regions: Dict<string, nat>, departments: Dict<string, nat>, raw: Option<string>): (r: GeoRef)
    ensures r.commune.None?
    ensures r.region.None? || r.department.None?
  {
    if raw.None? || raw.value == "" then NoGeo
    else
      var name := Normalize(raw.value);
      if name == "" || name in National then NoGeo
      else if Get(departments, name).Some? then GeoRef(None, Get(departments, name), None)
      else if Get(regions, name).Some? then GeoRef(Get(regions, name), None, None)
      else if Fuzzy(name, departments, 0).Some? then GeoRef(None, Fuzzy(name, departments, 0), None)
      else if Fuzzy(name, regions, 0).Some? then GeoRef(Fuzzy(name, regions, 0), None, None)
      else NoGeo
  }

  /** No label, an empty one, or one naming the whole country resolves to
      nothing. */
  lemma ResolveNational(regions: Dict<string, nat>, departments: Dict<string, nat>, raw: Option<string>)
    requires raw.None? || raw.value == "" || Normalize(raw.value) == "" || Normalize(raw.value) in National
    ensures ResolveGeo(regions, departments, raw) == NoGeo
  {
  }

  /** An exact department name wins over everything, an exact region name
      over the fuzzy scans; whatever is found is a row of its table. */
  lemma ResolvePrecedence(regions: Dict<string, nat>, departments: Dict<string, nat>, s: string)
    requires s != "" && Normalize(s) != "" && Normalize(s) !in National
    ensures HasKey(departments, Normalize(s)) ==>
      ResolveGeo(regions, departments, Some(s)) == GeoRef(None, Get(departments, Normalize(s)), None)
    ensures !HasKey(departments, Normalize(s)) && HasKey(regions, Normalize(s)) ==>
      ResolveGeo(regions, departments, Some(s)) == GeoRef(Get(regions, Normalize(s)), None, None)
    ensures ResolveGeo(regions, departments, Some(s)).department.Some? ==>
      exists k :: 0 <= k < |departments| && departments[k].1 == ResolveGeo(regions, departments, Some(s)).department.value
    ensures ResolveGeo(regions, departments, Some(s)).region.Some? ==>
      exists k :: 0 <= k < |regions| && regions[k].1 == ResolveGeo(regions, departments, Some(s)).region.value
  {
  }

  // ---------------------------------------------------------------------------
  // The command's lookup state
  // ---------------------------------------------------------------------------

  /** `self.region_by_name` and `self.department_by_name`. */
  class Lookup {
    var regionByName: Dict<string, nat>
    var departmentByName: Dict<string, nat>

    constructor()
      ensures regionByName == [] && departmentByName == []
    {
      regionByName := [];
      departmentByName := [];
    }

    /** `_build_geo_lookup()` over the region and department rows. */
    method Build(regionRows: seq<(nat, string)>, departmentRows: seq<(nat, string)>)
      modifies this
      ensures regionByName == ApplyAliases(NameIndex(regionRows), Aliases, Normalize)
      ensures departmentByName == NameIndex(departmentRows)
    {
      var regions := IndexRows(regionRows, RowKey, RowId);
      departmentByName := IndexRows(departmentRows, RowKey, RowId);
      regionByName := AddAliases(regions, Aliases, Normalize);
    }

    /** `_resolve_geo(raw_label)`, with its two fuzzy scans. */
    method Resolve(raw: Option<string>) returns (r: GeoRef)
      ensures r == ResolveGeo(regionByName, departmentByName, raw)
    {
      if raw.None? || raw.value == "" {
        return NoGeo;
      }
      var name := Normalize(raw.value);
      if name == "" || name in National {
        return NoGeo;
      }
      var department := Get(departmentByName, name);
      if department.Some? {
        return GeoRef(None, department, None);
      }
      var region := Get(regionByName, name);
      if region.Some? {
        return GeoRef(region, None, None);
      }
      var found := ScanFirst(departmentByName, name);
      if found.Some? {
        return GeoRef(None, found, None);
      }
      found := ScanFirst(regionByName, name);
      if found.Some? {
        return GeoRef(found, None, None);
      }
      return NoGeo;
    }
  }

  /** The alias loop of `_build_geo_lookup`. */
  method AddAliases(base: Dict<string, nat>, aliases: seq<(string, string)>, norm: string -> string)
    returns (d: Dict<string, nat>)
    ensures d == ApplyAliases(base, aliases, norm)
  {
    d := base;
    var i := 0;
    while i < |aliases|
      invariant 0 <= i <= |aliases|
      invariant d == ApplyAliases(base, aliases[..i], norm)
    {
      assert aliases[..i + 1][..i] == aliases[..i];
      var srcNorm := norm(aliases[i].0);
      var dstNorm := norm(aliases[i].1);
      var found := Get(d, dstNorm);
      if found.Some? {
        d := Put(d, srcNorm, found.value);
      }
      i := i + 1;
    }
    assert aliases[..|aliases|] == aliases;
  }

  /** The `for key, row in by_name.items()` scan with its early return. */
  method ScanFirst(d: Dict<string, nat>, name: string) returns (r: Option<nat>)
    ensures r == Fuzzy(name, d, 0)
  {
    var i := 0;
    while i < |d|
      invariant 0 <= i <= |d|
      invariant Fuzzy(name, d, 0) == Fuzzy(name, d, i)
    {
      if Contains(name, d[i].0) || Contains(d[i].0, name) {
        return Some(d[i].1);
      }
      i := i + 1;
    }
    return None;
  }

  /** A label whose normal form is the normal name of a department row
      resolves to a department row with that normal name (the last one). */
  lemma ResolveKnownDepartment(regionRows: seq<(nat, string)>, departmentRows: seq<(nat, string)>, s: string, k: nat)
    requires k < |departmentRows| && Normalize(departmentRows[k].1) == Normalize(s)
    requires s != "" && Normalize(s) != "" && Normalize(s) !in National
    ensures var r := ResolveGeo(ApplyAliases(NameIndex(regionRows), Aliases, Normalize), NameIndex(departmentRows), Some(s));
      && r.region.None?
      && r.department.Some?
      && exists j :: 0 <= j < |departmentRows| && Normalize(departmentRows[j].1) == Normalize(s)
           && departmentRows[j].0 == r.department.value
  {
    NameIndexGet(departmentRows, Normalize(s));
  }
}
