/** `import_education_json` of the `populate_data` command: a row-driven state
    machine over each sheet. A "PERIODE" row sets the map from columns to
    school years, a "FREQUENCE … INDICATEUR" row sets the current indicator,
    and the other rows are data rows, ignored until both are set. */
module EducationImport {
  import opened Wrappers
  import opened Text
  import opened Json
  import opened Dicts
  import opened Normalization
  import opened Numbers
  import opened Catalog
  import opened ImportHelpers
  import opened GeoLookup
  import opened IndicatorModels
  import opened IndicatorStore
  import opened Populate

  /** The state of the row loop of one sheet: the progress of the import,
      `year_map` and `current_indicator` (an id). */
  datatype Machine = Machine(progress: Progress, yearMap: Dict<string, nat>, current: Option<nat>)

  /** `str(row.get(first_col) or "").strip()` for the first column of a
      non-empty row: the first key, looked up in the dictionary `json.loads`
      built, which holds the last binding of a repeated key. */
  function FirstValue(row: Row): string
    requires row != []
  {
    Strip(Str(Or(GetOrNull(row, row[0].0), JStr(""))))
  }

  /** The year values of a data row: for each column of the year map, in
      order, the cell of that column when `_parse_number` reads a number. */
  function ColumnPairs(yearMap: Dict<string, nat>, row: Row): (pairs: seq<(nat, real)>)
    ensures |pairs| <= |yearMap|
  {
    if yearMap == [] then []
    else
      var col := yearMap[|yearMap| - 1];
      var before := ColumnPairs(yearMap[..|yearMap| - 1], row);
      match ParseNumber(GetOrNull(row, col.0))
      case Some(v) => before + [(col.1, v)]
      case None => before
  }

  function EduRequest(group: string, sheet: string, name: string, unit: string): Request {
    Request(Education, GuessCategoryAsWritten("education", group, sheet, name), GuessType(unit, name), name, group, sheet, unit,
      "Import JSON education / " + group + " / " + sheet, None, None)
  }

  /** A row whose first value sets the year map. */
  predicate IsPeriodRow(row: Row) {
    row != [] && FirstValue(row) != "" && Contains(Normalize(FirstValue(row)), "PERIODE")
  }

  /** A row whose first value names an indicator (and is not a period row). */
  predicate IsIndicatorRow(row: Row) {
    row != [] && FirstValue(row) != "" && !IsPeriodRow(row)
      && Contains(Normalize(FirstValue(row)), "FREQUENCE") && Contains(Normalize(FirstValue(row)), "INDICATEUR")
  }

  /** One row of an education sheet. */
  function EduRow(ctx: Context, m: Machine, group: string, sheet: string, row: Row): Machine {
    if row == [] then m
    else
      var first := FirstValue(row);
      var n := Normalize(first);
      if first == "" then m
      else if Contains(n, "PERIODE") then m.(yearMap := YearMap(row))
      else if Contains(n, "FREQUENCE") && Contains(n, "INDICATEUR") then
        var line := IndicatorLine(first);
        var name := CleanName(line.0);
        if name == "" then m
        else
          var obtained := Obtain(m.progress, EduRequest(group, sheet, name, line.1), ctx.hashOf);
          Machine(obtained.progress, m.yearMap, Some(obtained.id))
      else if m.current.None? || m.yearMap == [] || IsEducationMetaRow(n) then m
      else
        var geo := ResolveGeo(ctx.regions, ctx.departments, Some(first));
        m.(progress := Store(m.progress, m.current.value, ColumnPairs(m.yearMap, row), geo, ctx.source))
  }

  /** The rows of a sheet, in order; items that are not non-empty objects are
      skipped. */
  function EduRows(ctx: Context, m: Machine, group: string, sheet: string, rows: seq<Value>): Machine {
    if rows == [] then m
    else
      var before := EduRows(ctx, m, group, sheet, rows[..|rows| - 1]);
      var row := rows[|rows| - 1];
      if row.JObject? then EduRow(ctx, before, group, sheet, row.fields) else before
  }

  /** The sheets of a group; each list of rows starts with an empty year map
      and no current indicator. */
  function EduSheets(ctx: Context, p: Progress, group: string, sheets: seq<(string, Value)>): Progress {
    if sheets == [] then p
    else
      var before := EduSheets(ctx, p, group, sheets[..|sheets| - 1]);
      var sheet := sheets[|sheets| - 1];
      if sheet.1.JList? then EduRows(ctx, Machine(before, [], None), group, sheet.0, sheet.1.items).progress else before
  }

  /** The groups of the workbook; values that are not objects are skipped. */
  function EduGroups(ctx: Context, p: Progress, groups: seq<(string, Value)>): Progress {
    if groups == [] then p
    else
      var before := EduGroups(ctx, p, groups[..|groups| - 1]);
      var group := groups[|groups| - 1];
      if group.1.JObject? then EduSheets(ctx, before, group.0, group.1.fields) else before
  }

  // ---------------------------------------------------------------------------
  // Properties
  // ---------------------------------------------------------------------------

  /** The current indicator, when set, is a row of the indicator table. */
  predicate Consistent(m: Machine) {
    m.current.Some? ==> m.current.value < |m.progress.indicators|
  }

  lemma EduRowConsistent(ctx: Context, m: Machine, group: string, sheet: string, row: Row)
    requires Consistent(m)
    ensures Consistent(EduRow(ctx, m, group, sheet, row))
  {
  }

  /** Every value written by a data row goes to the current indicator. */
  lemma {:induction false} EduRowsConsistent(ctx: Context, m: Machine, group: string, sheet: string, rows: seq<Value>)
    requires Consistent(m)
    ensures Consistent(EduRows(ctx, m, group, sheet, rows))
  {
    if rows != [] {
      EduRowsConsistent(ctx, m, group, sheet, rows[..|rows| - 1]);
      var row := rows[|rows| - 1];
      if row.JObject? {
        EduRowConsistent(ctx, EduRows(ctx, m, group, sheet, rows[..|rows| - 1]), group, sheet, row.fields);
      }
    }
  }

  lemma EduRowValid(ctx: Context, m: Machine, group: string, sheet: string, row: Row)
    requires ValidProgress(m.progress)
    ensures ValidProgress(EduRow(ctx, m, group, sheet, row).progress)
  {
    if row != [] {
      var first := FirstValue(row);
      var n := Normalize(first);
      if first == "" || Contains(n, "PERIODE") {
      } else if Contains(n, "FREQUENCE") && Contains(n, "INDICATEUR") {
        var line := IndicatorLine(first);
        var name := CleanName(line.0);
        if name != "" {
          ObtainValid(m.progress, EduRequest(group, sheet, name, line.1), ctx.hashOf);
        }
      } else if !(m.current.None? || m.yearMap == [] || IsEducationMetaRow(n)) {
        StoreValid(m.progress, m.current.value, ColumnPairs(m.yearMap, row), ResolveGeo(ctx.regions, ctx.departments, Some(first)), ctx.source);
      }
    }
  }

  lemma {:induction false} EduRowsValid(ctx: Context, m: Machine, group: string, sheet: string, rows: seq<Value>)
    requires ValidProgress(m.progress)
    ensures ValidProgress(EduRows(ctx, m, group, sheet, rows).progress)
  {
    if rows != [] {
      EduRowsValid(ctx, m, group, sheet, rows[..|rows| - 1]);
      var row := rows[|rows| - 1];
      if row.JObject? {
        EduRowValid(ctx, EduRows(ctx, m, group, sheet, rows[..|rows| - 1]), group, sheet, row.fields);
      }
    }
  }

  lemma {:induction false} EduSheetsValid(ctx: Context, p: Progress, group: string, sheets: seq<(string, Value)>)
    requires ValidProgress(p)
    ensures ValidProgress(EduSheets(ctx, p, group, sheets))
  {
    if sheets != [] {
      var before := EduSheets(ctx, p, group, sheets[..|sheets| - 1]);
      EduSheetsValid(ctx, p, group, sheets[..|sheets| - 1]);
      var sheet := sheets[|sheets| - 1];
      if sheet.1.JList? {
        EduRowsValid(ctx, Machine(before, [], None), group, sheet.0, sheet.1.items);
      }
    }
  }

  /** The education import keeps indicator codes and names unique and one
      value per key. */
  lemma {:induction false} EduGroupsValid(ctx: Context, p: Progress, groups: seq<(string, Value)>)
    requires ValidProgress(p)
    ensures ValidProgress(EduGroups(ctx, p, groups))
  {
    if groups != [] {
      var before := EduGroups(ctx, p, groups[..|groups| - 1]);
      EduGroupsValid(ctx, p, groups[..|groups| - 1]);
      var group := groups[|groups| - 1];
      if group.1.JObject? {
        EduSheetsValid(ctx, before, group.0, group.1.fields);
      }
    }
  }

  /** Without a period row, the year map stays empty and no value is
      written: data rows before the first period row are ignored. */
  lemma {:induction false} NoPeriodNoValues(ctx: Context, m: Machine, group: string, sheet: string, rows: seq<Value>)
    requires m.yearMap == []
    requires forall i :: 0 <= i < |rows| && rows[i].JObject? ==> !IsPeriodRow(rows[i].fields)
    ensures var r := EduRows(ctx, m, group, sheet, rows);
      r.yearMap == [] && r.progress.values == m.progress.values && r.progress.imported == m.progress.imported
  {
    if rows != [] {
      var init := rows[..|rows| - 1];
      assert forall i :: 0 <= i < |init| ==> init[i] == rows[i];
      NoPeriodNoValues(ctx, m, group, sheet, init);
    }
  }

  /** Without an indicator row, no indicator is current and no value is
      written: data rows before the first indicator row are ignored. */
  lemma {:induction false} NoIndicatorNoValues(ctx: Context, m: Machine, group: string, sheet: string, rows: seq<Value>)
    requires m.current.None?
    requires forall i :: 0 <= i < |rows| && rows[i].JObject? ==> !IsIndicatorRow(rows[i].fields)
    ensures var r := EduRows(ctx, m, group, sheet, rows);
      r.current.None? && r.progress == m.progress
  {
    if rows != [] {
      var init := rows[..|rows| - 1];
      assert forall i :: 0 <= i < |init| ==> init[i] == rows[i];
      NoIndicatorNoValues(ctx, m, group, sheet, init);
    }
  }

  /** A data row under a current indicator and a year map writes the values
      its year columns parse to, at the territory its first value names, for
      the current indicator; one value is counted per parsed cell. */
  lemma DataRowStores(ctx: Context, m: Machine, group: string, sheet: string, row: Row)
    requires row != [] && FirstValue(row) != ""
    requires !IsPeriodRow(row) && !IsIndicatorRow(row)
    requires m.current.Some? && m.yearMap != [] && !IsEducationMetaRow(Normalize(FirstValue(row)))
    ensures var r := EduRow(ctx, m, group, sheet, row);
      && r.yearMap == m.yearMap && r.current == m.current
      && r.progress.indicators == m.progress.indicators
      && r.progress.imported == m.progress.imported + |ColumnPairs(m.yearMap, row)|
      && r.progress.values == UpsertAll(m.progress.values, m.current.value, ColumnPairs(m.yearMap, row),
           ResolveGeo(ctx.regions, ctx.departments, Some(FirstValue(row))), ctx.source, TargetOf(m.progress.indicators, m.current.value))
  {
  }

  /** A year value read from a column of the year map. */
  predicate FromColumn(yearMap: Dict<string, nat>, row: Row, pair: (nat, real)) {
    exists i :: 0 <= i < |yearMap| && yearMap[i].1 == pair.0 && ParseNumber(GetOrNull(row, yearMap[i].0)) == Some(pair.1)
  }

  /** Every year of a data row's values comes from the year map, with the
      number its column's cell parses to. */
  lemma {:induction false} ColumnPairsFromMap(yearMap: Dict<string, nat>, row: Row)
    ensures forall k :: 0 <= k < |ColumnPairs(yearMap, row)| ==> FromColumn(yearMap, row, ColumnPairs(yearMap, row)[k])
  {
    if yearMap != [] {
      var init := yearMap[..|yearMap| - 1];
      ColumnPairsFromMap(init, row);
      var before := ColumnPairs(init, row);
      var last := |yearMap| - 1;
      var pairs := ColumnPairs(yearMap, row);
      forall k | 0 <= k < |pairs|
        ensures FromColumn(yearMap, row, pairs[k])
      {
        if k < |before| {
          assert pairs[k] == before[k];
          assert FromColumn(init, row, before[k]);
          var i :| 0 <= i < |init| && init[i].1 == before[k].0 && ParseNumber(GetOrNull(row, init[i].0)) == Some(before[k].1);
          assert yearMap[i] == init[i];
        } else {
          assert pairs[k] == (yearMap[last].1, ParseNumber(GetOrNull(row, yearMap[last].0)).value);
        }
      }
    }
  }

  /** A column whose cell parses to a number gives a year value. */
  lemma {:induction false} ColumnPairsComplete(yearMap: Dict<string, nat>, row: Row, i: nat)
    requires i < |yearMap| && ParseNumber(GetOrNull(row, yearMap[i].0)).Some?
    ensures (yearMap[i].1, ParseNumber(GetOrNull(row, yearMap[i].0)).value) in ColumnPairs(yearMap, row)
  {
    var n := |yearMap| - 1;
    var init := yearMap[..n];
    var pair := (yearMap[i].1, ParseNumber(GetOrNull(row, yearMap[i].0)).value);
    if i < n {
      assert init[i] == yearMap[i];
      ColumnPairsComplete(init, row, i);
      assert pair in ColumnPairs(init, row);
      ColumnPairsGrow(yearMap, row);
    } else {
      ColumnPairsLast(yearMap, row, i);
      assert ColumnPairs(yearMap, row) == ColumnPairs(init, row) + [pair];
    }
  }

  /** The last column, when its cell parses, gives the last pair. */
  lemma ColumnPairsLast(yearMap: Dict<string, nat>, row: Row, i: nat)
    requires i == |yearMap| - 1 && ParseNumber(GetOrNull(row, yearMap[i].0)).Some?
    ensures ColumnPairs(yearMap, row) == ColumnPairs(yearMap[..i], row) + [(yearMap[i].1, ParseNumber(GetOrNull(row, yearMap[i].0)).value)]
  {
  }

  /** A year map with one more column keeps the pairs it had. */
  lemma ColumnPairsGrow(yearMap: Dict<string, nat>, row: Row)
    requires yearMap != []
    ensures forall x :: x in ColumnPairs(yearMap[..|yearMap| - 1], row) ==> x in ColumnPairs(yearMap, row)
  {
  }

  // ---------------------------------------------------------------------------
  // The loops
  // ---------------------------------------------------------------------------

  /** `for column_key, year in year_map.items(): …` — the upserts of one data row. */
  method StoreColumns(db: Database, id: nat, yearMap: Dict<string, nat>, row: Row, geo: GeoRef, source: string, imported0: nat)
    returns (imported: nat)
    requires id < |db.indicators|
    modifies db
    ensures db.values == UpsertAll(old(db.values), id, ColumnPairs(yearMap, row), geo, source, TargetOf(old(db.indicators), id))
    ensures db.indicators == old(db.indicators) && imported == imported0 + |ColumnPairs(yearMap, row)|
  {
    imported := imported0;
    ghost var target := TargetOf(db.indicators, id);
    ghost var values0, indicators0 := db.values, db.indicators;
    var i := 0;
    while i < |yearMap|
      invariant 0 <= i <= |yearMap|
      invariant db.indicators == indicators0
      invariant db.values == UpsertAll(values0, id, ColumnPairs(yearMap[..i], row), geo, source, target)
      invariant imported == imported0 + |ColumnPairs(yearMap[..i], row)|
    {
      ghost var before := db.values;
      var stored := StoreColumn(db, id, yearMap[i], row, geo, source);
      StoreColumnsStep(values0, id, yearMap, row, i, geo, source, target, before, db.values, stored);
      if stored {
        imported := imported + 1;
      }
      i := i + 1;
    }
    assert yearMap[..|yearMap|] == yearMap;
  }

  /** One column of a data row: the upsert of its year's value when the cell
      parses to a number; `stored` says whether it did. */
  method StoreColumn(db: Database, id: nat, col: (string, nat), row: Row, geo: GeoRef, source: string) returns (stored: bool)
    requires id < |db.indicators|
    modifies db
    ensures stored <==> ParseNumber(GetOrNull(row, col.0)).Some?
    ensures stored ==> db.values == Upsert(old(db.values), YearKey(id, geo, col.1),
      ParseNumber(GetOrNull(row, col.0)).value, source, TargetOf(old(db.indicators), id))
    ensures !stored ==> db.values == old(db.values)
    ensures db.indicators == old(db.indicators)
  {
    var value := ParseNumber(GetOrNull(row, col.0));
    stored := value.Some?;
    if stored {
      db.UpsertIndicatorValue(id, col.1, value.value, geo.region, geo.department, geo.commune, source);
    }
  }

  /** One more column of the year map adds its pair when its cell parses. */
  lemma ColumnStep(yearMap: Dict<string, nat>, row: Row, i: nat)
    requires i < |yearMap|
    ensures var v := ParseNumber(GetOrNull(row, yearMap[i].0));
      && (v.Some? ==> ColumnPairs(yearMap[..i + 1], row) == ColumnPairs(yearMap[..i], row) + [(yearMap[i].1, v.value)])
      && (v.None? ==> ColumnPairs(yearMap[..i + 1], row) == ColumnPairs(yearMap[..i], row))
  {
    assert yearMap[..i + 1][..i] == yearMap[..i];
  }

  /** One more column of the loop of `StoreColumns`: one more upsert when
      the cell parsed, none otherwise. */
  lemma StoreColumnsStep(values0: seq<ValueRow>, id: nat, yearMap: Dict<string, nat>, row: Row, i: nat, geo: GeoRef,
                         source: string, target: Option<real>, before: seq<ValueRow>, after: seq<ValueRow>, stored: bool)
    requires i < |yearMap|
    requires before == UpsertAll(values0, id, ColumnPairs(yearMap[..i], row), geo, source, target)
    requires stored <==> ParseNumber(GetOrNull(row, yearMap[i].0)).Some?
    requires stored ==> after == Upsert(before, YearKey(id, geo, yearMap[i].1), ParseNumber(GetOrNull(row, yearMap[i].0)).value, source, target)
    requires !stored ==> after == before
    ensures after == UpsertAll(values0, id, ColumnPairs(yearMap[..i + 1], row), geo, source, target)
    ensures |ColumnPairs(yearMap[..i + 1], row)| == |ColumnPairs(yearMap[..i], row)| + if stored then 1 else 0
  {
    ColumnStep(yearMap, row, i);
    if stored {
      UpsertSnoc(values0, id, ColumnPairs(yearMap[..i], row), (yearMap[i].1, ParseNumber(GetOrNull(row, yearMap[i].0)).value), geo, source, target);
    }
  }

  /** The upserts of one more pair are one more upsert. */
  lemma UpsertSnoc(rows: seq<ValueRow>, id: nat, pairs: seq<(nat, real)>, p: (nat, real), geo: GeoRef, source: string, target: Option<real>)
    ensures UpsertAll(rows, id, pairs + [p], geo, source, target)
      == Upsert(UpsertAll(rows, id, pairs, geo, source, target), YearKey(id, geo, p.0), p.1, source, target)
  {
    assert (pairs + [p])[..|pairs|] == pairs;
  }

  /** `_get_or_create_indicator` for an indicator row, and the count of
      created indicators. */
  method ObtainIndicator(db: Database, hashOf: string -> int, req: Request, imported: nat, created0: nat)
    returns (id: nat, created: nat)
    modifies db
    ensures Obtained(Progress(db.indicators, db.values, imported, created), id)
      == Obtain(Progress(old(db.indicators), old(db.values), imported, created0), req, hashOf)
  {
    ghost var p0 := Progress(db.indicators, db.values, imported, created0);
    var isNew;
    id, isNew := db.GetOrCreateIndicator(req, hashOf(CleanLabel(req.name)));
    ObtainOutcome(p0, req, hashOf, db.indicators, id, isNew);
    created := if isNew then created0 + 1 else created0;
  }

  /** `Store` from the values the upserts of a data row leave. */
  lemma DataRowOutcome(ctx: Context, m: Machine, group: string, sheet: string, row: Row, values: seq<ValueRow>)
    requires row != [] && FirstValue(row) != ""
    requires !Contains(Normalize(FirstValue(row)), "PERIODE")
    requires !(Contains(Normalize(FirstValue(row)), "FREQUENCE") && Contains(Normalize(FirstValue(row)), "INDICATEUR"))
    requires m.current.Some? && m.yearMap != [] && !IsEducationMetaRow(Normalize(FirstValue(row)))
    requires values == UpsertAll(m.progress.values, m.current.value, ColumnPairs(m.yearMap, row),
      ResolveGeo(ctx.regions, ctx.departments, Some(FirstValue(row))), ctx.source, TargetOf(m.progress.indicators, m.current.value))
    ensures EduRow(ctx, m, group, sheet, row)
      == m.(progress := Progress(m.progress.indicators, values, m.progress.imported + |ColumnPairs(m.yearMap, row)|, m.progress.created))
  {
    var geo := ResolveGeo(ctx.regions, ctx.departments, Some(FirstValue(row)));
    assert EduRow(ctx, m, group, sheet, row) == m.(progress := Store(m.progress, m.current.value, ColumnPairs(m.yearMap, row), geo, ctx.source));
    StoreOutcome(m.progress, m.current.value, ColumnPairs(m.yearMap, row), geo, ctx.source, values);
  }

  /** The body of the row loop of `import_education_json`. */
  method EduRowStep(lookup: Lookup, db: Database, source: string, hashOf: string -> int, group: string, sheet: string, row: Row,
                    yearMap: Dict<string, nat>, current: Option<nat>, imported0: nat, created0: nat)
    returns (yearMap': Dict<string, nat>, current': Option<nat>, imported: nat, created: nat)
    requires current.Some? ==> current.value < |db.indicators|
    modifies db
    ensures current'.Some? ==> current'.value < |db.indicators|
    ensures Machine(Progress(db.indicators, db.values, imported, created), yearMap', current')
      == EduRow(ContextOf(lookup, source, hashOf), Machine(Progress(old(db.indicators), old(db.values), imported0, created0), yearMap, current), group, sheet, row)
  {
    yearMap', current', imported, created := yearMap, current, imported0, created0;
    if row == [] {
      return;
    }
    var first := FirstValue(row);
    if first == "" {
      return;
    }
    var n := Normalize(first);
    if Contains(n, "PERIODE") {
      yearMap' := ExtractYearMap(row);
      return;
    }
    if Contains(n, "FREQUENCE") && Contains(n, "INDICATEUR") {
      current', created := EduHeaderRow(lookup, db, source, hashOf, group, sheet, row, yearMap, current, imported0, created0);
      return;
    }
    if current.None? || yearMap == [] || IsEducationMetaRow(n) {
      return;
    }
    imported := EduDataRow(lookup, db, source, hashOf, group, sheet, row, yearMap, current, imported0, created0);
  }

  /** An indicator header row: the indicator it names becomes the current
      one, created when it is new. */
  method EduHeaderRow(lookup: Lookup, db: Database, source: string, hashOf: string -> int, group: string, sheet: string, row: Row,
                      yearMap: Dict<string, nat>, current: Option<nat>, imported0: nat, created0: nat)
    returns (current': Option<nat>, created: nat)
    requires current.Some? ==> current.value < |db.indicators|
    requires row != [] && FirstValue(row) != "" && !Contains(Normalize(FirstValue(row)), "PERIODE")
    requires Contains(Normalize(FirstValue(row)), "FREQUENCE") && Contains(Normalize(FirstValue(row)), "INDICATEUR")
    modifies db
    ensures current'.Some? ==> current'.value < |db.indicators|
    ensures Machine(Progress(db.indicators, db.values, imported0, created), yearMap, current')
      == EduRow(ContextOf(lookup, source, hashOf), Machine(Progress(old(db.indicators), old(db.values), imported0, created0), yearMap, current), group, sheet, row)
  {
    current', created := current, created0;
    var line := IndicatorLine(FirstValue(row));
    var name := CleanName(line.0);
    if name == "" {
      return;
    }
    var id;
    id, created := ObtainIndicator(db, hashOf, EduRequest(group, sheet, name, line.1), imported0, created0);
    current' := Some(id);
  }

  /** A data row under a current indicator and a year map: its values are
      stored. */
  method EduDataRow(lookup: Lookup, db: Database, source: string, hashOf: string -> int, group: string, sheet: string, row: Row,
                    yearMap: Dict<string, nat>, current: Option<nat>, imported0: nat, created0: nat)
    returns (imported: nat)
    requires current.Some? && current.value < |db.indicators|
    requires row != [] && FirstValue(row) != "" && !Contains(Normalize(FirstValue(row)), "PERIODE")
    requires !(Contains(Normalize(FirstValue(row)), "FREQUENCE") && Contains(Normalize(FirstValue(row)), "INDICATEUR"))
    requires yearMap != [] && !IsEducationMetaRow(Normalize(FirstValue(row)))
    modifies db
    ensures |db.indicators| == |old(db.indicators)|
    ensures Machine(Progress(db.indicators, db.values, imported, created0), yearMap, current)
      == EduRow(ContextOf(lookup, source, hashOf), Machine(Progress(old(db.indicators), old(db.values), imported0, created0), yearMap, current), group, sheet, row)
  {
    ghost var ctx := ContextOf(lookup, source, hashOf);
    ghost var m := Machine(Progress(db.indicators, db.values, imported0, created0), yearMap, current);
    var geo := lookup.Resolve(Some(FirstValue(row)));
    assert geo == ResolveGeo(ctx.regions, ctx.departments, Some(FirstValue(row)));
    imported := StoreColumns(db, current.value, yearMap, row, geo, source, imported0);
    DataRowOutcome(ctx, m, group, sheet, row, db.values);
    assert ContextOf(lookup, source, hashOf) == ctx;
  }

  /** The row loop of one sheet, starting with an empty year map and no
      current indicator. */
  method EduSheet(lookup: Lookup, db: Database, source: string, hashOf: string -> int,
                  group: string, sheet: string, rows: seq<Value>, imported0: nat, created0: nat)
    returns (imported: nat, created: nat)
    modifies db
    ensures Progress(db.indicators, db.values, imported, created)
      == EduRows(ContextOf(lookup, source, hashOf), Machine(Progress(old(db.indicators), old(db.values), imported0, created0), [], None), group, sheet, rows).progress
  {
    ghost var ctx := ContextOf(lookup, source, hashOf);
    ghost var start := Machine(Progress(db.indicators, db.values, imported0, created0), [], None);
    imported, created := imported0, created0;
    var yearMap: Dict<string, nat> := [];
    var current: Option<nat> := None;
    var i := 0;
    while i < |rows|
      invariant 0 <= i <= |rows|
      invariant current.Some? ==> current.value < |db.indicators|
      invariant Machine(Progress(db.indicators, db.values, imported, created), yearMap, current) == EduRows(ctx, start, group, sheet, rows[..i])
    {
      EduRowsSnoc(ctx, start, group, sheet, rows, i);
      if rows[i].JObject? {
        yearMap, current, imported, created := EduRowStep(lookup, db, source, hashOf, group, sheet, rows[i].fields, yearMap, current, imported, created);
      }
      i := i + 1;
    }
    assert rows[..|rows|] == rows;
  }

  /** The rows of a sheet up to one more row. */
  lemma EduRowsSnoc(ctx: Context, m: Machine, group: string, sheet: string, rows: seq<Value>, i: nat)
    requires i < |rows|
    ensures EduRows(ctx, m, group, sheet, rows[..i + 1])
      == if rows[i].JObject? then EduRow(ctx, EduRows(ctx, m, group, sheet, rows[..i]), group, sheet, rows[i].fields)
         else EduRows(ctx, m, group, sheet, rows[..i])
  {
    assert rows[..i + 1][..i] == rows[..i];
  }

  /** One more sheet of the sheet loop. */
  lemma EduSheetsStep(ctx: Context, start: Progress, group: string, sheets: seq<(string, Value)>, i: nat)
    requires i < |sheets|
    ensures EduSheets(ctx, start, group, sheets[..i + 1])
      == if sheets[i].1.JList? then EduRows(ctx, Machine(EduSheets(ctx, start, group, sheets[..i]), [], None), group, sheets[i].0, sheets[i].1.items).progress
         else EduSheets(ctx, start, group, sheets[..i])
  {
    assert sheets[..i + 1][..i] == sheets[..i];
  }

  /** The sheet loop of one group. */
  method EduGroup(lookup: Lookup, db: Database, source: string, hashOf: string -> int,
                  group: string, sheets: seq<(string, Value)>, imported0: nat, created0: nat)
    returns (imported: nat, created: nat)
    modifies db
    ensures Progress(db.indicators, db.values, imported, created)
      == EduSheets(ContextOf(lookup, source, hashOf), Progress(old(db.indicators), old(db.values), imported0, created0), group, sheets)
  {
    ghost var ctx := ContextOf(lookup, source, hashOf);
    ghost var start := Progress(db.indicators, db.values, imported0, created0);
    imported, created := imported0, created0;
    var i := 0;
    while i < |sheets|
      invariant 0 <= i <= |sheets|
      invariant Progress(db.indicators, db.values, imported, created) == EduSheets(ctx, start, group, sheets[..i])
    {
      EduSheetsStep(ctx, start, group, sheets, i);
      if sheets[i].1.JList? {
        imported, created := EduSheet(lookup, db, source, hashOf, group, sheets[i].0, sheets[i].1.items, imported, created);
      }
      i := i + 1;
    }
    assert sheets[..|sheets|] == sheets;
  }

  /** `import_education_json`: the number of values written. A file that is
      missing or does not parse is `None` and imports nothing; a document
      that is not an object has no `items` and raises `AttributeError`
      before anything is written. */
  method ImportEducationJson(lookup: Lookup, db: Database, data: Option<Value>, fileName: string, hashOf: string -> int)
    returns (r: Result<nat, PyError>)
    modifies db
    ensures data.None? ==> r == Ok(0) && db.indicators == old(db.indicators) && db.values == old(db.values)
    ensures data.Some? && !data.value.JObject? ==>
      r == Err(AttributeError) && db.indicators == old(db.indicators) && db.values == old(db.values)
    ensures data.Some? && data.value.JObject? ==>
      var p := EduGroups(ContextOf(lookup, "json:" + fileName, hashOf), Progress(old(db.indicators), old(db.values), 0, 0), data.value.fields);
      db.indicators == p.indicators && db.values == p.values && r == Ok(p.imported)
  {
    if data.None? {
      return Ok(0);
    }
    var items := Items(data.value);
    if items.None? {
      return Err(AttributeError);
    }
    var groups := items.value;
    var source := "json:" + fileName;
    ghost var ctx := ContextOf(lookup, source, hashOf);
    ghost var start := Progress(db.indicators, db.values, 0, 0);
    var imported := 0;
    var created := 0;
    var i := 0;
    while i < |groups|
      invariant 0 <= i <= |groups|
      invariant Progress(db.indicators, db.values, imported, created) == EduGroups(ctx, start, groups[..i])
    {
      assert groups[..i + 1][..i] == groups[..i];
      if groups[i].1.JObject? {
        imported, created := EduGroup(lookup, db, source, hashOf, groups[i].0, groups[i].1.fields, imported, created);
      }
      i := i + 1;
    }
    assert groups[..|groups|] == groups;
    r := Ok(imported);
  }
}
