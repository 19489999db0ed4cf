/** The two JSON importers of the `populate_data` command and the option
    check of its `handle`. A workbook is a JSON object mapping group keys to
    objects mapping sheet names to lists of rows; a row is an object mapping
    column names to cells. Values are written through the command's
    `_get_or_create_indicator` and `_upsert_indicator_value`. */
module Populate {
  import opened Wrappers
  import opened Text
  import opened Json
  import opened Dicts
  import opened Normalization
  import opened Numbers
  import opened Catalog
  import opened ImportHelpers
  import opened GeoLookup
  import opened IndicatorModels
  import opened IndicatorStore

  type Row = seq<(string, Value)>

  // ---------------------------------------------------------------------------
  // Writing the values of one indicator and territory
  // ---------------------------------------------------------------------------

  /** The key `_upsert_indicator_value` writes for a year. */
  function YearKey(id: nat, geo: GeoRef, year: nat): ValueKey {
    ValueKey(id, geo.region, geo.department, geo.commune, year, "")
  }

  /** The upserts of `for year, value in pairs`, in order. */
  function UpsertAll(rows: seq<ValueRow>, id: nat, pairs: seq<(nat, real)>, geo: GeoRef, source: string, target: Option<real>): seq<ValueRow> {
    if pairs == [] then rows
    else
      var last := pairs[|pairs| - 1];
      Upsert(UpsertAll(rows, id, pairs[..|pairs| - 1], geo, source, target), YearKey(id, geo, last.0), last.1, source, target)
  }

  /** The table keeps one row per key. */
  lemma {:induction false} UpsertAllUnique(rows: seq<ValueRow>, id: nat, pairs: seq<(nat, real)>, geo: GeoRef, source: string, target: Option<real>)
    requires UniqueKeys(rows)
    ensures UniqueKeys(UpsertAll(rows, id, pairs, geo, source, target))
  {
    if pairs != [] {
      var init := pairs[..|pairs| - 1];
      var last := pairs[|pairs| - 1];
      UpsertAllUnique(rows, id, init, geo, source, target);
      UpsertStores(UpsertAll(rows, id, init, geo, source, target), YearKey(id, geo, last.0), last.1, source, target);
    }
  }

  /** A row with the key that holds the value, validated. */
  predicate Holds(r: seq<ValueRow>, k: ValueKey, value: real) {
    exists i :: 0 <= i < |r| && Key(r[i]) == k && r[i].value == value && r[i].status == Validated
  }

  /** For every year of the pairs, the row of that year holds the value of
      the last pair with that year, validated. */
  lemma {:induction false} UpsertAllStores(rows: seq<ValueRow>, id: nat, pairs: seq<(nat, real)>, geo: GeoRef, source: string, target: Option<real>)
    requires UniqueKeys(rows)
    ensures forall i :: 0 <= i < |pairs| && (forall j :: i < j < |pairs| ==> pairs[j].0 != pairs[i].0) ==>
      Holds(UpsertAll(rows, id, pairs, geo, source, target), YearKey(id, geo, pairs[i].0), pairs[i].1)
  {
    if pairs != [] {
      var init := pairs[..|pairs| - 1];
      var last := pairs[|pairs| - 1];
      var before := UpsertAll(rows, id, init, geo, source, target);
      var r := UpsertAll(rows, id, pairs, geo, source, target);
      assert r == Upsert(before, YearKey(id, geo, last.0), last.1, source, target);
      forall i | 0 <= i < |pairs| && (forall j :: i < j < |pairs| ==> pairs[j].0 != pairs[i].0)
        ensures Holds(r, YearKey(id, geo, pairs[i].0), pairs[i].1)
      {
        if i < |init| {
          UpsertAllStores(rows, id, init, geo, source, target);
          assert pairs[i] == init[i];
          assert forall j :: i < j < |init| ==> init[j] == pairs[j];
          assert Holds(before, YearKey(id, geo, init[i].0), init[i].1);
          var k :| 0 <= k < |before| && Key(before[k]) == YearKey(id, geo, init[i].0) && before[k].value == init[i].1 && before[k].status == Validated;
          assert r[k] == before[k];
        } else {
          UpsertAllUnique(rows, id, init, geo, source, target);
          UpsertStores(before, YearKey(id, geo, last.0), last.1, source, target);
        }
      }
    }
  }

  /** `for year, value in year_values: self._upsert_indicator_value(…);
      imported_values += 1`. */
  method UpsertPairs(db: Database, id: nat, pairs: seq<(nat, real)>, geo: GeoRef, source: string, imported0: nat)
    returns (imported: nat)
    requires id < |db.indicators|
    modifies db
    ensures db.values == UpsertAll(old(db.values), id, pairs, geo, source, old(db.indicators)[id].target)
    ensures db.indicators == old(db.indicators)
    ensures imported == imported0 + |pairs|
  {
    imported := imported0;
    var i := 0;
    while i < |pairs|
      invariant 0 <= i <= |pairs|
      invariant db.indicators == old(db.indicators)
      invariant db.values == UpsertAll(old(db.values), id, pairs[..i], geo, source, old(db.indicators)[id].target)
      invariant imported == imported0 + i
    {
      assert pairs[..i + 1][..i] == pairs[..i];
      db.UpsertIndicatorValue(id, pairs[i].0, pairs[i].1, geo.region, geo.department, geo.commune, source);
      imported := imported + 1;
      i := i + 1;
    }
    assert pairs[..|pairs|] == pairs;
  }

  // ---------------------------------------------------------------------------
  // What an import has done so far
  // ---------------------------------------------------------------------------

  /** The two tables and the two counters an importer keeps. */
  datatype Progress = Progress(indicators: seq<Indicator>, values: seq<ValueRow>, imported: nat, created: nat)

  /** What an import reads but does not change: the lookup tables, the
      `source` written on values (`"json:" + file name`), and Python's
      `hash()` of a cleaned name. */
  datatype Context = Context(regions: Dict<string, nat>, departments: Dict<string, nat>, source: string, hashOf: string -> int)

  function ContextOf(lookup: Lookup, source: string, hashOf: string -> int): Context
    reads lookup
  {
    Context(lookup.regionByName, lookup.departmentByName, source, hashOf)
  }

  /** Unique codes and names, and one value per key. */
  predicate ValidProgress(p: Progress) {
    ValidIndicators(p.indicators) && UniqueKeys(p.values)
  }

  function TargetOf(inds: seq<Indicator>, id: nat): Option<real> {
    if id < |inds| then inds[id].target else None
  }

  /** The progress after an indicator lookup, and the indicator's id. */
  datatype Obtained = Obtained(progress: Progress, id: nat)

  /** `_get_or_create_indicator(…)` and `if created: created_indicators += 1`. */
  function Obtain(p: Progress, req: Request, hashOf: string -> int): (r: Obtained)
    ensures r.id < |r.progress.indicators|
    ensures r.progress.values == p.values && r.progress.imported == p.imported
  {
    Advance(p, GetOrCreate(p.indicators, req, hashOf(CleanLabel(req.name))))
  }

  /** The new indicator table and `created_indicators` after one lookup. */
  function Advance(p: Progress, o: Outcome): Obtained {
    Obtained(p.(indicators := o.table, created := p.created + if o.created then 1 else 0), o.id)
  }

  /** The upserts of the pairs and `imported_values += 1` for each. */
  function Store(p: Progress, id: nat, pairs: seq<(nat, real)>, geo: GeoRef, source: string): (r: Progress)
    ensures r.indicators == p.indicators && r.imported == p.imported + |pairs|
  {
    p.(values := UpsertAll(p.values, id, pairs, geo, source, TargetOf(p.indicators, id)), imported := p.imported + |pairs|)
  }

  /** An indicator obtained for a request, then its year values stored at
      the territory the label resolves to. */
  function Import(ctx: Context, p: Progress, req: Request, pairs: seq<(nat, real)>, place: Option<string>): Progress {
    var obtained := Obtain(p, req, ctx.hashOf);
    Store(obtained.progress, obtained.id, pairs, ResolveGeo(ctx.regions, ctx.departments, place), ctx.source)
  }

  /** `Obtain` is `Advance` applied to the outcome of `GetOrCreate`. */
  lemma ObtainAdvance(p: Progress, req: Request, hashOf: string -> int, table: seq<Indicator>, id: nat, isNew: bool)
    requires Outcome(table, id, isNew) == GetOrCreate(p.indicators, req, hashOf(CleanLabel(req.name)))
    ensures Obtain(p, req, hashOf) == Advance(p, Outcome(table, id, isNew))
  {
  }

  /** What `Obtain` computes, from the outcome of `GetOrCreate`. */
  lemma ObtainOutcome(p: Progress, req: Request, hashOf: string -> int, table: seq<Indicator>, id: nat, isNew: bool)
    requires Outcome(table, id, isNew) == GetOrCreate(p.indicators, req, hashOf(CleanLabel(req.name)))
    ensures Obtain(p, req, hashOf) == Obtained(Progress(table, p.values, p.imported, if isNew then p.created + 1 else p.created), id)
  {
    ObtainAdvance(p, req, hashOf, table, id, isNew);
  }

  /** `Import` stores the pairs with what `Obtain` gave. */
  lemma ImportOutcome(ctx: Context, p: Progress, req: Request, pairs: seq<(nat, real)>, place: Option<string>, o: Obtained)
    requires o == Obtain(p, req, ctx.hashOf)
    ensures Import(ctx, p, req, pairs, place) == Store(o.progress, o.id, pairs, ResolveGeo(ctx.regions, ctx.departments, place), ctx.source)
  {
  }

  /** What `Store` computes, from the values the upserts leave. */
  lemma StoreOutcome(p: Progress, id: nat, pairs: seq<(nat, real)>, geo: GeoRef, source: string, values: seq<ValueRow>)
    requires values == UpsertAll(p.values, id, pairs, geo, source, TargetOf(p.indicators, id))
    ensures Store(p, id, pairs, geo, source) == Progress(p.indicators, values, p.imported + |pairs|, p.created)
  {
  }

  lemma ObtainValid(p: Progress, req: Request, hashOf: string -> int)
    requires ValidProgress(p)
    ensures ValidProgress(Obtain(p, req, hashOf).progress)
  {
    var clean := CleanLabel(req.name);
    DecideValid(p.indicators, req, clean, CodeFor(req, clean), CodeFor(req, SuffixedName(clean, hashOf(clean))));
  }

  lemma StoreValid(p: Progress, id: nat, pairs: seq<(nat, real)>, geo: GeoRef, source: string)
    requires ValidProgress(p)
    ensures ValidProgress(Store(p, id, pairs, geo, source))
  {
    UpsertAllUnique(p.values, id, pairs, geo, source, TargetOf(p.indicators, id));
  }

  // ---------------------------------------------------------------------------
  // import_health_json
  // ---------------------------------------------------------------------------

  /** Normal forms of "Période" cells that do not name a territory. */
  const NotTerritory: set<string> := {"", "PERIODE", "DECOUPAGE ADMINISTRATIF"}

  /** `current_geo_label` after a row: the stripped "Période" text when it is
      a non-blank string whose normal form names a territory. */
  function NextGeoLabel(place: Option<string>, row: Row): Option<string> {
    match Json.Get(row, "P\U{e9}riode")
    case Some(JStr(text)) =>
      if Strip(text) != "" && Normalize(text) !in NotTerritory then Some(Strip(text)) else place
    case _ => place
  }

  /** `_clean_indicator_name(row.get("Unnamed: 1") or row.get("Unnamed: 2") or "")`. */
  function HealthName(row: Row): string {
    CleanName(Str(Or(Or(GetOrNull(row, "Unnamed: 1"), GetOrNull(row, "Unnamed: 2")), JStr(""))))
  }

  /** The name and the year values of a row that is imported; None for a
      row without a name, with a header-like name, or without year values. */
  function HealthEntry(row: Row): (r: Option<(string, seq<(nat, real)>)>)
    ensures r.Some? ==> r.value.0 != "" && !LooksLikeHeader(r.value.0) && r.value.1 != []
  {
    var name := HealthName(row);
    if name == "" || LooksLikeHeader(name) then None
    else
      var pairs := YearValues(row);
      if pairs == [] then None else Some((name, pairs))
  }

  function HealthRequest(group: string, sheet: string, name: string): Request {
    Request(Health, GuessCategoryAsWritten("health", group, sheet, name), GuessType("", name), name, group, sheet, "",
      "Import JSON sante / " + group + " / " + sheet, None, None)
  }

  /** The progress of a sheet and its `current_geo_label`. */
  datatype Cursor = Cursor(progress: Progress, place: Option<string>)

  /** One row of a health sheet. */
  function HealthRow(ctx: Context, p: Progress, place: Option<string>, group: string, sheet: string, row: Row): Cursor {
    var place' := NextGeoLabel(place, row);
    match HealthEntry(row)
    case None => Cursor(p, place')
    case Some(entry) =>
      Cursor(Import(ctx, p, HealthRequest(group, sheet, entry.0), entry.1, place'), place')
  }

  /** The rows of a sheet, in order; items that are not objects are skipped. */
  function HealthRows(ctx: Context, p: Progress, place: Option<string>, group: string, sheet: string, rows: seq<Value>): Cursor {
    if rows == [] then Cursor(p, place)
    else
      var before := HealthRows(ctx, p, place, group, sheet, rows[..|rows| - 1]);
      var row := rows[|rows| - 1];
      if row.JObject? then HealthRow(ctx, before.progress, before.place, group, sheet, row.fields) else before
  }

  /** The sheets of a group; each list of rows starts without a territory. */
  function HealthSheets(ctx: Context, p: Progress, group: string, sheets: seq<(string, Value)>): Progress {
    if sheets == [] then p
    else
      var before := HealthSheets(ctx, p, group, sheets[..|sheets| - 1]);
      var sheet := sheets[|sheets| - 1];
      if sheet.1.JList? then HealthRows(ctx, before, None, group, sheet.0, sheet.1.items).progress else before
  }

  /** The groups of the workbook; values that are not objects are skipped. */
  function HealthGroups(ctx: Context, p: Progress, groups: seq<(string, Value)>): Progress {
    if groups == [] then p
    else
      var before := HealthGroups(ctx, p, groups[..|groups| - 1]);
      var group := groups[|groups| - 1];
      if group.1.JObject? then HealthSheets(ctx, before, group.0, group.1.fields) else before
  }

  lemma {:induction false} HealthRowsValid(ctx: Context, p: Progress, place: Option<string>, group: string, sheet: string, rows: seq<Value>)
    requires ValidProgress(p)
    ensures ValidProgress(HealthRows(ctx, p, place, group, sheet, rows).progress)
  {
    if rows != [] {
      var before := HealthRows(ctx, p, place, group, sheet, rows[..|rows| - 1]);
      HealthRowsValid(ctx, p, place, group, sheet, rows[..|rows| - 1]);
      var row := rows[|rows| - 1];
      if row.JObject? {
        var place' := NextGeoLabel(before.place, row.fields);
        match HealthEntry(row.fields)
        case None =>
        case Some(entry) =>
          var req := HealthRequest(group, sheet, entry.0);
          ObtainValid(before.progress, req, ctx.hashOf);
          var obtained := Obtain(before.progress, req, ctx.hashOf);
          StoreValid(obtained.progress, obtained.id, entry.1, ResolveGeo(ctx.regions, ctx.departments, place'), ctx.source);
      }
    }
  }

  lemma {:induction false} HealthSheetsValid(ctx: Context, p: Progress, group: string, sheets: seq<(string, Value)>)
    requires ValidProgress(p)
    ensures ValidProgress(HealthSheets(ctx, p, group, sheets))
  {
    if sheets != [] {
      var before := HealthSheets(ctx, p, group, sheets[..|sheets| - 1]);
      HealthSheetsValid(ctx, p, group, sheets[..|sheets| - 1]);
      var sheet := sheets[|sheets| - 1];
      if sheet.1.JList? {
        HealthRowsValid(ctx, before, None, group, sheet.0, sheet.1.items);
      }
    }
  }

  /** The health import keeps indicator codes and names unique and one value
      per key. */
  lemma {:induction false} HealthGroupsValid(ctx: Context, p: Progress, groups: seq<(string, Value)>)
    requires ValidProgress(p)
    ensures ValidProgress(HealthGroups(ctx, p, groups))
  {
    if groups != [] {
      var before := HealthGroups(ctx, p, groups[..|groups| - 1]);
      HealthGroupsValid(ctx, p, groups[..|groups| - 1]);
      var group := groups[|groups| - 1];
      if group.1.JObject? {
        HealthSheetsValid(ctx, before, group.0, group.1.fields);
      }
    }
  }

  /** `_upsert_indicator_value` for each year value, at the territory
      `_resolve_geo` finds for the label. */
  method StorePairs(lookup: Lookup, db: Database, source: string, id: nat, pairs: seq<(nat, real)>, place: Option<string>, imported0: nat)
    returns (imported: nat)
    requires id < |db.indicators|
    modifies db
    ensures db.values == UpsertAll(old(db.values), id, pairs, ResolveGeo(lookup.regionByName, lookup.departmentByName, place), source, TargetOf(old(db.indicators), id))
    ensures db.indicators == old(db.indicators) && imported == imported0 + |pairs|
  {
    var geo := lookup.Resolve(place);
    imported := UpsertPairs(db, id, pairs, geo, source, imported0);
  }

  /** `_get_or_create_indicator` for a request, then the upserts of its year values. */
  method ImportPairs(lookup: Lookup, db: Database, source: string, hashOf: string -> int,
                     req: Request, pairs: seq<(nat, real)>, place: Option<string>, imported0: nat, created0: nat)
    returns (imported: nat, created: nat)
    modifies db
    ensures Progress(db.indicators, db.values, imported, created)
      == Import(ContextOf(lookup, source, hashOf), Progress(old(db.indicators), old(db.values), imported0, created0), req, pairs, place)
  {
    ghost var p0 := Progress(db.indicators, db.values, imported0, created0);
    var id, isNew := db.GetOrCreateIndicator(req, hashOf(CleanLabel(req.name)));
    ObtainOutcome(p0, req, hashOf, db.indicators, id, isNew);
    created := if isNew then created0 + 1 else created0;
    ghost var mid := Progress(db.indicators, db.values, imported0, created);
    ImportOutcome(ContextOf(lookup, source, hashOf), p0, req, pairs, place, Obtained(mid, id));
    imported := StorePairs(lookup, db, source, id, pairs, place, imported0);
    StoreOutcome(mid, id, pairs, ResolveGeo(lookup.regionByName, lookup.departmentByName, place), source, db.values);
  }

  /** The name and year values of a health row, read with the year-column loop. */
  method ReadHealthEntry(row: Row) returns (entry: Option<(string, seq<(nat, real)>)>)
    ensures entry == HealthEntry(row)
  {
    var name := HealthName(row);
    if name == "" || LooksLikeHeader(name) {
      return None;
    }
    var pairs := ExtractYearValues(row);
    entry := if pairs == [] then None else Some((name, pairs));
  }

  /** The body of the row loop of `import_health_json`. */
  method HealthRowStep(lookup: Lookup, db: Database, source: string, hashOf: string -> int,
                       place: Option<string>, group: string, sheet: string, row: Row, imported0: nat, created0: nat)
    returns (place': Option<string>, imported: nat, created: nat)
    modifies db
    ensures Cursor(Progress(db.indicators, db.values, imported, created), place')
      == HealthRow(ContextOf(lookup, source, hashOf), Progress(old(db.indicators), old(db.values), imported0, created0), place, group, sheet, row)
  {
    imported, created := imported0, created0;
    place' := NextGeoLabel(place, row);
    var entry := ReadHealthEntry(row);
    if entry.None? {
      return;
    }
    imported, created := ImportPairs(lookup, db, source, hashOf, HealthRequest(group, sheet, entry.value.0), entry.value.1, place', imported0, created0);
  }

  /** The row loop of one sheet, starting with `current_geo_label = None`. */
  method HealthSheet(lookup: Lookup, db: Database, source: string, hashOf: string -> int,
                     group: string, sheet: string, rows: seq<Value>, imported0: nat, created0: nat)
    returns (imported: nat, created: nat)
    modifies db
    ensures Progress(db.indicators, db.values, imported, created)
      == HealthRows(ContextOf(lookup, source, hashOf), Progress(old(db.indicators), old(db.values), imported0, created0), None, group, sheet, rows).progress
  {
    ghost var ctx := ContextOf(lookup, source, hashOf);
    ghost var start := Progress(db.indicators, db.values, imported0, created0);
    imported, created := imported0, created0;
    var place: Option<string> := None;
    var i := 0;
    while i < |rows|
      invariant 0 <= i <= |rows|
      invariant Cursor(Progress(db.indicators, db.values, imported, created), place) == HealthRows(ctx, start, None, group, sheet, rows[..i])
    {
      assert rows[..i + 1][..i] == rows[..i];
      if rows[i].JObject? {
        place, imported, created := HealthRowStep(lookup, db, source, hashOf, place, group, sheet, rows[i].fields, imported, created);
      }
      i := i + 1;
    }
    assert rows[..|rows|] == rows;
  }

  /** The sheet loop of one group. */
  method HealthGroup(lookup: Lookup, db: Database, source: string, hashOf: string -> int,
                     group: string, sheets: seq<(string, Value)>, imported0: nat, created0: nat)
    returns (imported: nat, created: nat)
    modifies db
    ensures Progress(db.indicators, db.values, imported, created)
      == HealthSheets(ContextOf(lookup, source, hashOf), Progress(old(db.indicators), old(db.values), imported0, created0), group, sheets)
  {
    ghost var ctx := ContextOf(lookup, source, hashOf);
    ghost var start := Progress(db.indicators, db.values, imported0, created0);
    imported, created := imported0, created0;
    var i := 0;
    while i < |sheets|
      invariant 0 <= i <= |sheets|
      invariant Progress(db.indicators, db.values, imported, created) == HealthSheets(ctx, start, group, sheets[..i])
    {
      assert sheets[..i + 1][..i] == sheets[..i];
      if sheets[i].1.JList? {
        imported, created := HealthSheet(lookup, db, source, hashOf, group, sheets[i].0, sheets[i].1.items, imported, created);
      }
      i := i + 1;
    }
    assert sheets[..|sheets|] == sheets;
  }

  /** `import_health_json`: the number of values written. A file that is
      missing or does not parse is `None` and imports nothing; a document
      that is not an object has no `items` and raises `AttributeError`
      before anything is written. */
  method ImportHealthJson(lookup: Lookup, db: Database, data: Option<Value>, fileName: string, hashOf: string -> int)
    returns (r: Result<nat, PyError>)
    modifies db
    ensures data.None? ==> r == Ok(0) && db.indicators == old(db.indicators) && db.values == old(db.values)
    ensures data.Some? && !data.value.JObject? ==>
      r == Err(AttributeError) && db.indicators == old(db.indicators) && db.values == old(db.values)
    ensures data.Some? && data.value.JObject? ==>
      var p := HealthGroups(ContextOf(lookup, "json:" + fileName, hashOf), Progress(old(db.indicators), old(db.values), 0, 0), data.value.fields);
      db.indicators == p.indicators && db.values == p.values && r == Ok(p.imported)
  {
    if data.None? {
      return Ok(0);
    }
    var items := Items(data.value);
    if items.None? {
      return Err(AttributeError);
    }
    var groups := items.value;
    var source := "json:" + fileName;
    ghost var ctx := ContextOf(lookup, source, hashOf);
    ghost var start := Progress(db.indicators, db.values, 0, 0);
    var imported := 0;
    var created := 0;
    var i := 0;
    while i < |groups|
      invariant 0 <= i <= |groups|
      invariant Progress(db.indicators, db.values, imported, created) == HealthGroups(ctx, start, groups[..i])
    {
      assert groups[..i + 1][..i] == groups[..i];
      if groups[i].1.JObject? {
        imported, created := HealthGroup(lookup, db, source, hashOf, groups[i].0, groups[i].1.fields, imported, created);
      }
      i := i + 1;
    }
    assert groups[..|groups|] == groups;
    r := Ok(imported);
  }
}
