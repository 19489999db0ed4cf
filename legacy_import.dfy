/** `import_json_data.py`, the older one-shot import script: it reads the
    health and the education workbooks, creates indicators by name as it
    meets them, collects the values in a list, and inserts the list at the
    end of each workbook with one bulk insert that ignores conflicts. An
    exception aborts the script: the indicators created so far stay, the
    collected values are lost. */
module LegacyImport {
  import opened Wrappers
  import opened Text
  import opened Json
  import opened Dicts
  import opened Numbers
  import opened Catalog
  import opened Seqs
  import opened ImportHelpers
  import opened IndicatorModels
  import opened IndicatorStore

  /** The exceptions that abort the script: a Python error raised on a cell,
      a code that is already taken, a name that matches several indicators. */
  datatype ScriptError = Raised(error: PyError) | IntegrityError | MultipleObjectsReturned

  // ---------------------------------------------------------------------------
  // Regions
  // ---------------------------------------------------------------------------

  function RegionKey(r: (nat, string)): string { PyUpper(r.1) }
  function RegionId(r: (nat, string)): nat { r.0 }

  /** `{r.name.upper(): r for r in Region.objects.all()}`: the last region of
      an upper-cased name wins. */
  function RegionsMap(regions: seq<(nat, string)>): Dict<string, nat> {
    Index(regions, RegionKey, RegionId)
  }

  /** `get_region(name)`. */
  function GetRegion(regions: Dict<string, nat>, name: string): Option<nat> {
    if name == "" then None
    else
      var n := PyUpper(Strip(name));
      if n == "SENEGAL" then None else Dicts.Get(regions, n)
  }

  /** An empty label or "Senegal" gives no region; any other label gives
      the last region whose upper-cased name is the stripped, upper-cased
      label, and no region when there is none. */
  lemma GetRegionSpec(regions: seq<(nat, string)>, name: string)
    ensures name == "" || PyUpper(Strip(name)) == "SENEGAL" ==> GetRegion(RegionsMap(regions), name).None?
    ensures name != "" && PyUpper(Strip(name)) != "SENEGAL" ==>
      (GetRegion(RegionsMap(regions), name).Some? <==> exists i :: 0 <= i < |regions| && PyUpper(regions[i].1) == PyUpper(Strip(name)))
    ensures GetRegion(RegionsMap(regions), name).Some? ==>
      exists i :: 0 <= i < |regions| && PyUpper(regions[i].1) == PyUpper(Strip(name))
        && regions[i].0 == GetRegion(RegionsMap(regions), name).value
        && forall j :: i < j < |regions| ==> PyUpper(regions[j].1) != PyUpper(Strip(name))
  {
    IndexGet(regions, RegionKey, RegionId, PyUpper(Strip(name)));
  }

  // ---------------------------------------------------------------------------
  // Codes
  // ---------------------------------------------------------------------------

  function SanitizeChar(c: char): char { if IsAlnum(c) then c else '_' }

  /** `re.sub(r'[^a-zA-Z0-9]', '_', name.upper())`. */
  function Sanitize(name: string): (r: string)
    ensures |r| == |PyUpper(name)|
    ensures forall i :: 0 <= i < |r| ==> r[i] == SanitizeChar(PyUpper(name)[i])
  {
    var u := PyUpper(name);
    seq(|u|, i requires 0 <= i < |u| => SanitizeChar(u[i]))
  }

  lemma SanitizeChars(name: string)
    ensures forall i :: 0 <= i < |Sanitize(name)| ==> IsCodeChar(Sanitize(name)[i])
  {
    PyUpperShape(name);
  }

  /** `f"{cat_name[:4].upper()}_{clean_name[:40]}"[:50]`. */
  function HealthCode(group: string, name: string): string {
    Take(PyUpper(Take(group, 4)) + "_" + Take(Sanitize(name), 40), 50)
  }

  /** `f"EDU_{clean_name[:40]}"[:50]`. */
  function EducationCode(name: string): string {
    Take("EDU_" + Take(Sanitize(name), 40), 50)
  }

  /** The health code is never cut by `[:50]`: it is the upper-cased group
      prefix, '_' and at most 40 code characters. */
  lemma HealthCodeShape(group: string, name: string)
    ensures var code := HealthCode(group, name);
      && code == PyUpper(Take(group, 4)) + "_" + Take(Sanitize(name), 40)
      && |code| <= 49
      && forall i :: |code| - |Take(Sanitize(name), 40)| <= i < |code| ==> IsCodeChar(code[i])
  {
    PyUpperShape(Take(group, 4));
    SanitizeChars(name);
    var tail := Take(Sanitize(name), 40);
    var code := PyUpper(Take(group, 4)) + "_" + tail;
    assert forall i :: |code| - |tail| <= i < |code| ==> code[i] == tail[i - (|code| - |tail|)];
  }

  /** An education code is "EDU_" and at most 40 characters of A-Z, 0-9, '_'. */
  lemma EducationCodeShape(name: string)
    ensures var code := EducationCode(name);
      && 4 <= |code| <= 44 && code[..4] == "EDU_"
      && forall i :: 4 <= i < |code| ==> IsCodeChar(code[i])
  {
    SanitizeChars(name);
    var tail := Take(Sanitize(name), 40);
    assert forall i :: 4 <= i < |"EDU_" + tail| ==> ("EDU_" + tail)[i] == tail[i - 4];
  }

  // ---------------------------------------------------------------------------
  // Indicators, by name
  // ---------------------------------------------------------------------------

  /** The number of indicators with exactly this name. */
  function NamedCount(inds: seq<Indicator>, name: string): nat {
    if inds == [] then 0
    else NamedCount(inds[..|inds| - 1], name) + if inds[|inds| - 1].name == name then 1 else 0
  }

  /** An indicator with the given name, as the script's defaults make it:
      type NUMBER, no description, target or threshold, active, `order` 0. */
  function NewIndicator(code: string, name: string, sector: Sector, category: Category, unit: string): Indicator {
    Indicator(code, name, sector, category, Number, unit, "", None, None, true, 0)
  }

  datatype Got = Got(table: seq<Indicator>, id: nat)

  /** `Indicator.objects.get_or_create(name=…, defaults=…)`: the one
      indicator of that name, else a new one with the defaults; several of
      that name raise, and a new code that is taken violates the unique
      constraint. */
  function GetOrCreateNamed(inds: seq<Indicator>, made: Indicator): (r: Result<Got, ScriptError>)
    ensures r.Ok? ==> r.value.id < |r.value.table| && r.value.table[r.value.id].name == made.name
    ensures r.Ok? ==> r.value.table == inds || r.value.table == inds + [made]
    ensures r == Err(MultipleObjectsReturned) <==> NamedCount(inds, made.name) > 1
    ensures r.Ok? && r.value.table != inds ==> NamedCount(inds, made.name) == 0
  {
    var n := NamedCount(inds, made.name);
    if n > 1 then Err(MultipleObjectsReturned)
    else
      match FirstIndex(inds, (ind: Indicator) => ind.name == made.name)
      case Some(i) => Ok(Got(inds, i))
      case None =>
        NoneNamed(inds, made.name);
        if FirstIndex(inds, (ind: Indicator) => ind.code == made.code).Some? then Err(IntegrityError)
        else Ok(Got(inds + [made], |inds|))
  }

  lemma {:induction false} NoneNamed(inds: seq<Indicator>, name: string)
    requires forall j :: 0 <= j < |inds| ==> inds[j].name != name
    ensures NamedCount(inds, name) == 0
  {
    if inds != [] {
      var init := inds[..|inds| - 1];
      assert forall j :: 0 <= j < |init| ==> init[j] == inds[j];
      NoneNamed(init, name);
    }
  }

  /** Names that are distinct stay distinct, and an indicator is found by
      name or created, never reported twice. */
  lemma GetOrCreateKeepsNames(inds: seq<Indicator>, made: Indicator)
    requires forall i, j :: 0 <= i < j < |inds| ==> inds[i].name != inds[j].name
    ensures GetOrCreateNamed(inds, made) != Err(MultipleObjectsReturned)
    ensures GetOrCreateNamed(inds, made).Ok? ==>
      var t := GetOrCreateNamed(inds, made).value.table;
      forall i, j :: 0 <= i < j < |t| ==> t[i].name != t[j].name
  {
    AtMostOneNamed(inds, made.name);
    var r := GetOrCreateNamed(inds, made);
    if r.Ok? && r.value.table != inds {
      var t := r.value.table;
      UnnamedWhenUncounted(inds, made.name);
      forall i, j | 0 <= i < j < |t| ensures t[i].name != t[j].name {
        assert t[i] == inds[i];
        if j < |inds| {
          assert t[j] == inds[j];
        }
      }
    }
  }

  lemma {:induction false} AtMostOneNamed(inds: seq<Indicator>, name: string)
    requires forall i, j :: 0 <= i < j < |inds| ==> inds[i].name != inds[j].name
    ensures NamedCount(inds, name) <= 1
  {
    if inds != [] {
      var init := inds[..|inds| - 1];
      AtMostOneNamed(init, name);
      if inds[|inds| - 1].name == name && NamedCount(init, name) == 1 {
        var k := NamedWitness(init, name);
      }
    }
  }

  lemma {:induction false} NamedWitness(inds: seq<Indicator>, name: string) returns (k: nat)
    requires NamedCount(inds, name) > 0
    ensures k < |inds| && inds[k].name == name
  {
    var init := inds[..|inds| - 1];
    if inds[|inds| - 1].name == name {
      k := |inds| - 1;
    } else {
      k := NamedWitness(init, name);
      assert inds[k] == init[k];
    }
  }

  lemma {:induction false} UnnamedWhenUncounted(inds: seq<Indicator>, name: string)
    requires NamedCount(inds, name) == 0
    ensures forall i :: 0 <= i < |inds| ==> inds[i].name != name
  {
    if inds != [] {
      var init := inds[..|inds| - 1];
      UnnamedWhenUncounted(init, name);
      assert forall i :: 0 <= i < |init| ==> init[i] == inds[i];
    }
  }

  // ---------------------------------------------------------------------------
  // Cells
  // ---------------------------------------------------------------------------

  /** A value the script collects: validated, with no department, commune
      or period; `bulk_create` does not call `save`, so nothing is derived. */
  function Collected(id: nat, region: Option<nat>, year: nat, value: real, source: string): (v: ValueRow)
    ensures v.indicator == id && v.region == region && v.year == year && v.value == value && v.status == Validated
    ensures v.department.None? && v.commune.None? && v.period == "" && v.variation.None? && v.achievement.None?
  {
    ValueRow(id, region, None, None, year, "", value, None, None, None, None, Validated, None, None, source)
  }

  /** `re.match(r'^\d{4}$', key)` then `int(key)`: four ASCII digits,
      optionally followed by the one newline `$` lets through. */
  function YearKey(key: string): Option<nat> {
    if |key| == 4 && AllDigits(key) then Some(DigitsValue(key))
    else if |key| == 5 && AllDigits(key[..4]) && key[4] == '\n' then Some(DigitsValue(key[..4]))
    else None
  }

  type Row = seq<(string, Value)>

  /** The value one cell of a health row contributes: none unless its key
      is a year and `clean_value` reads a number. */
  function HealthCell(id: nat, region: Option<nat>, cell: (string, Value)): (r: Result<seq<ValueRow>, PyError>)
    ensures r.Ok? ==> |r.value| <= 1 && forall k :: 0 <= k < |r.value| ==> r.value[k].indicator == id && r.value[k].region == region && r.value[k].department.None?
    ensures r.Ok? && r.value != [] ==> YearKey(cell.0) == Some(r.value[0].year) && CleanValue(cell.1) == Ok(Some(r.value[0].value))
    ensures YearKey(cell.0).None? ==> r == Ok([])
  {
    match YearKey(cell.0)
    case None => Ok([])
    case Some(year) =>
      match CleanValue(cell.1)
      case Err(e) => Err(e)
      case Ok(None) => Ok([])
      case Ok(Some(x)) => Ok([Collected(id, region, year, x, "sante.json")])
  }

  /** The health values of a row: `for key, val in row.items()`, in order,
      until a cell raises. */
  function HealthCells(id: nat, region: Option<nat>, row: Row): Result<seq<ValueRow>, PyError> {
    if row == [] then Ok([])
    else
      match HealthCells(id, region, row[..|row| - 1])
      case Err(e) => Err(e)
      case Ok(before) =>
        match HealthCell(id, region, row[|row| - 1])
        case Err(e) => Err(e)
        case Ok(more) => Ok(before + more)
  }

  /** Every collected health value belongs to the indicator and region of
      its row, and has no department. */
  lemma {:induction false} HealthCellsShape(id: nat, region: Option<nat>, row: Row)
    ensures HealthCells(id, region, row).Ok? ==>
      var cells := HealthCells(id, region, row).value;
      forall k :: 0 <= k < |cells| ==> cells[k].indicator == id && cells[k].region == region && cells[k].department.None?
  {
    if row != [] {
      HealthCellsShape(id, region, row[..|row| - 1]);
      var r := HealthCells(id, region, row);
      if r.Ok? {
        var before := HealthCells(id, region, row[..|row| - 1]).value;
        var more := HealthCell(id, region, row[|row| - 1]).value;
        assert r.value == before + more;
        assert HealthCells(id, region, row[..|row| - 1]).Ok? && HealthCell(id, region, row[|row| - 1]).Ok?;
        forall k | 0 <= k < |r.value| ensures r.value[k].indicator == id && r.value[k].region == region && r.value[k].department.None? {
          if k < |before| {
            assert r.value[k] == before[k];
          } else {
            assert r.value[k] == more[k - |before|];
          }
        }
      }
    }
  }

  // ---------------------------------------------------------------------------
  // process_sante
  // ---------------------------------------------------------------------------

  /** The indicator table, the values collected so far, and the exception
      that aborted the script, if one did. */
  datatype Batch = Batch(table: seq<Indicator>, pending: seq<ValueRow>, failed: Option<ScriptError>)

  /** The state of the row loop of one health sheet: `current_region`. */
  datatype HealthCursor = HealthCursor(batch: Batch, region: Option<nat>)

  /** One row of a health sheet (the batch has not failed). */
  function HealthRow(regions: Dict<string, nat>, c: HealthCursor, group: string, row: Value): HealthCursor {
    var b := c.batch;
    if !row.JObject? then HealthCursor(b.(failed := Some(Raised(AttributeError))), c.region)
    else
      var period := GetOrNull(row.fields, "P\U{e9}riode");
      if Truthy(period) && !period.JStr? then HealthCursor(b.(failed := Some(Raised(AttributeError))), c.region)
      else
        var region := if Truthy(period) then GetRegion(regions, period.s) else c.region;
        var raw := GetOrNull(row.fields, "Unnamed: 1");
        if !Truthy(raw) then HealthCursor(b, region)
        else if !raw.JStr? then HealthCursor(b.(failed := Some(Raised(AttributeError))), region)
        else if Contains(Lower(raw.s), "indicateurs") then HealthCursor(b, region)
        else
          var name := Strip(RemoveAll(raw.s, "(*)"));
          var category := if Contains(name, "Budget") then Resources else Access;
          match GetOrCreateNamed(b.table, NewIndicator(HealthCode(group, name), name, Health, category, ""))
          case Err(e) => HealthCursor(b.(failed := Some(e)), region)
          case Ok(got) =>
            match HealthCells(got.id, region, row.fields)
            case Err(e) => HealthCursor(Batch(got.table, b.pending, Some(Raised(e))), region)
            case Ok(cells) => HealthCursor(Batch(got.table, b.pending + cells, None), region)
  }

  /** The rows of a sheet, until one raises. */
  function HealthRows(regions: Dict<string, nat>, c: HealthCursor, group: string, rows: seq<Value>): HealthCursor {
    if rows == [] then c
    else
      var before := HealthRows(regions, c, group, rows[..|rows| - 1]);
      if before.batch.failed.Some? then before else HealthRow(regions, before, group, rows[|rows| - 1])
  }

  /** The sheets of a group (`sheets.items()`); each starts with no current
      region. A sheet whose rows are not iterable raises `TypeError`. */
  function HealthSheets(regions: Dict<string, nat>, b: Batch, group: string, sheets: seq<(string, Value)>): Batch {
    if sheets == [] then b
    else
      var before := HealthSheets(regions, b, group, sheets[..|sheets| - 1]);
      if before.failed.Some? then before
      else
        match Iterate(sheets[|sheets| - 1].1)
        case None => before.(failed := Some(Raised(TypeError)))
        case Some(rows) => HealthRows(regions, HealthCursor(before, None), group, rows).batch
  }

  /** The groups of the health workbook (`data.items()`). A group that is not
      an object has no `items` and raises `AttributeError`. */
  function HealthGroups(regions: Dict<string, nat>, b: Batch, groups: seq<(string, Value)>): Batch {
    if groups == [] then b
    else
      var before := HealthGroups(regions, b, groups[..|groups| - 1]);
      if before.failed.Some? then before
      else
        match Items(groups[|groups| - 1].1)
        case None => before.(failed := Some(Raised(AttributeError)))
        case Some(sheets) => HealthSheets(regions, before, groups[|groups| - 1].0, sheets)
  }

  /** The health workbook as `json.load` returns it: a document that is not
      an object raises `AttributeError` at `data.items()`. */
  function HealthWorkbook(regions: Dict<string, nat>, b: Batch, data: Value): Batch {
    match Items(data)
    case None => b.(failed := Some(Raised(AttributeError)))
    case Some(groups) => HealthGroups(regions, b, groups)
  }

  /** Rows whose indicator cell mentions "indicateurs" (in any case) are
      headers: they collect nothing and create no indicator. */
  lemma HeaderRowSkipped(regions: Dict<string, nat>, c: HealthCursor, group: string, row: Value)
    requires row.JObject? && !Truthy(GetOrNull(row.fields, "P\U{e9}riode"))
    requires GetOrNull(row.fields, "Unnamed: 1").JStr?
    requires Contains(Lower(GetOrNull(row.fields, "Unnamed: 1").s), "indicateurs")
    ensures HealthRow(regions, c, group, row) == c
  {
  }

  // ---------------------------------------------------------------------------
  // process_education
  // ---------------------------------------------------------------------------

  /** `int(s)` for a string that starts with a digit: digits, with single
      underscores between them. */
  predicate IntLiteral(s: string) {
    s != [] && IsDigit(s[|s| - 1]) && forall i :: 0 <= i < |s| ==> IntChar(s, i)
  }

  /** A digit, or an underscore between two digits. */
  predicate IntChar(s: string, i: nat)
    requires i < |s|
  {
    IsDigit(s[i]) || (s[i] == '_' && 0 < i < |s| - 1 && IsDigit(s[i - 1]) && IsDigit(s[i + 1]))
  }

  lemma IntLiteralDigits(s: string)
    requires IntLiteral(s)
    ensures AllDigits(Remove(s, '_'))
  {
    forall c | c in Remove(s, '_') ensures IsDigit(c) {
      assert c in s && c != '_';
      var i :| 0 <= i < |s| && s[i] == c;
      assert IntChar(s, i);
    }
  }

  /** `re.match(r'^\d{4}', s)`. */
  predicate YearPrefix(s: string) {
    |s| >= 4 && AllDigits(s[..4])
  }

  /** One cell of the header comprehension
      `{k: int(str(v).strip()) for k, v in row.items() if v and re.match(r'^\d{4}', str(v).strip())}`. */
  function YearsStep(years: Dict<string, nat>, cell: (string, Value)): Result<Dict<string, nat>, PyError> {
    var text := Strip(Str(cell.1));
    if !Truthy(cell.1) || !YearPrefix(text) then Ok(years)
    else if IntLiteral(text) then IntLiteralDigits(text); Ok(Put(years, cell.0, DigitsValue(Remove(text, '_'))))
    else Err(ValueError)
  }

  function Years(row: Row): Result<Dict<string, nat>, PyError> {
    if row == [] then Ok([])
    else
      match Years(row[..|row| - 1])
      case Err(e) => Err(e)
      case Ok(years) => YearsStep(years, row[|row| - 1])
  }

  /** A header cell holding a school-year range such as "2019-2020" starts
      with four digits but is not an integer: the comprehension raises. */
  lemma SchoolYearRaises(col: string)
    ensures Years([(col, JStr("2019-2020"))]) == Err(ValueError)
  {
    var text := "2019-2020";
    assert Strip(text) == text by { StripUnchanged(text); }
    assert YearPrefix(text) by { assert text[..4] == "2019"; }
    assert !IntLiteral(text) by {
      assert !IntChar(text, 4);
    }
    assert [(col, JStr("2019-2020"))][..0] == [];
  }

  /** The name and unit read from an indicator line. */
  datatype Info = Info(name: string, unit: string)

  /** One comma-separated part of an indicator line: the text after its
      first ':' names the indicator or its unit. */
  function InfoStep(info: Info, part: string): Info {
    if Contains(part, "Indicateurs") && ':' in part then info.(name := Strip(Split(part, ':')[1]))
    else if Contains(part, "Unit\U{e9}") && ':' in part then info.(unit := Strip(Split(part, ':')[1]))
    else info
  }

  /** `for i in first_val.split(','): …`, from `("Inconnu", "")`. */
  function InfoOf(parts: seq<string>): Info {
    if parts == [] then Info("Inconnu", "") else InfoStep(InfoOf(parts[..|parts| - 1]), parts[|parts| - 1])
  }

  /** Without an "Indicateurs:" part the indicator is named "Inconnu". */
  lemma {:induction false} InfoDefaultName(parts: seq<string>)
    requires forall k :: 0 <= k < |parts| ==> !(Contains(parts[k], "Indicateurs") && ':' in parts[k])
    ensures InfoOf(parts).name == "Inconnu"
  {
    if parts != [] {
      InfoDefaultName(parts[..|parts| - 1]);
    }
  }

  /** The education values of a data row: `for col_key, year in years.items()`,
      keeping the cells whose `clean_value` is a number. */
  function EducationCells(years: Dict<string, nat>, id: nat, region: Option<nat>, row: Row): Result<seq<ValueRow>, PyError> {
    if years == [] then Ok([])
    else
      match EducationCells(years[..|years| - 1], id, region, row)
      case Err(e) => Err(e)
      case Ok(before) =>
        var col := years[|years| - 1];
        match CleanValue(GetOrNull(row, col.0))
        case Err(e) => Err(e)
        case Ok(None) => Ok(before)
        case Ok(Some(x)) => Ok(before + [Collected(id, region, col.1, x, "education.json")])
  }

  /** The state of the row loop of one education sheet: `years` and `indicator`. */
  datatype EducationCursor = EducationCursor(batch: Batch, years: Dict<string, nat>, indicator: Option<nat>)

  /** `str(row[first_key] or '')`: the first key, looked up in the
      dictionary `json.loads` built, which holds the last binding of a
      repeated key. */
  function FirstText(row: Row): string
    requires row != []
  {
    Str(Or(GetOrNull(row, row[0].0), JStr("")))
  }

  /** One row of an education sheet (the batch has not failed). */
  function EducationRow(regions: Dict<string, nat>, c: EducationCursor, row: Value): EducationCursor {
    var b := c.batch;
    if !Truthy(row) then c
    else if !row.JObject? then c.(batch := b.(failed := Some(Raised(AttributeError))))
    else
      var first := FirstText(row.fields);
      if Contains(first, "P\U{e9}riode") then
        match Years(row.fields)
        case Err(e) => c.(batch := b.(failed := Some(Raised(e))))
        case Ok(years) => c.(years := years)
      else if Contains(first, "Fr\U{e9}quence:") then
        var info := InfoOf(Split(first, ','));
        match GetOrCreateNamed(b.table, NewIndicator(EducationCode(info.name), info.name, Education, Infrastructure, info.unit))
        case Err(e) => c.(batch := b.(failed := Some(e)))
        case Ok(got) => EducationCursor(b.(table := got.table), c.years, Some(got.id))
      else
        var regionName := Strip(first);
        if regionName == "" || c.years == [] || c.indicator.None? then c
        else
          match EducationCells(c.years, c.indicator.value, GetRegion(regions, regionName), row.fields)
          case Err(e) => c.(batch := b.(failed := Some(Raised(e))))
          case Ok(cells) => c.(batch := b.(pending := b.pending + cells))
  }

  function EducationRows(regions: Dict<string, nat>, c: EducationCursor, rows: seq<Value>): EducationCursor {
    if rows == [] then c
    else
      var before := EducationRows(regions, c, rows[..|rows| - 1]);
      if before.batch.failed.Some? then before else EducationRow(regions, before, rows[|rows| - 1])
  }

  /** The sheets of a group; each starts with no years and no indicator. A
      sheet whose rows are not iterable raises `TypeError`. */
  function EducationSheets(regions: Dict<string, nat>, b: Batch, sheets: seq<(string, Value)>): Batch {
    if sheets == [] then b
    else
      var before := EducationSheets(regions, b, sheets[..|sheets| - 1]);
      if before.failed.Some? then before
      else
        match Iterate(sheets[|sheets| - 1].1)
        case None => before.(failed := Some(Raised(TypeError)))
        case Some(rows) => EducationRows(regions, EducationCursor(before, [], None), rows).batch
  }

  /** The groups of the education workbook; a group that is not an object
      raises `AttributeError`. */
  function EducationGroups(regions: Dict<string, nat>, b: Batch, groups: seq<(string, Value)>): Batch {
    if groups == [] then b
    else
      var before := EducationGroups(regions, b, groups[..|groups| - 1]);
      if before.failed.Some? then before
      else
        match Items(groups[|groups| - 1].1)
        case None => before.(failed := Some(Raised(AttributeError)))
        case Some(sheets) => EducationSheets(regions, before, sheets)
  }

  /** The education workbook; a document that is not an object raises
      `AttributeError`. */
  function EducationWorkbook(regions: Dict<string, nat>, b: Batch, data: Value): Batch {
    match Items(data)
    case None => b.(failed := Some(Raised(AttributeError)))
    case Some(groups) => EducationGroups(regions, b, groups)
  }

  /** Until a header row sets the years, data rows collect nothing. */
  lemma {:induction false} NoYearsNothingCollected(regions: Dict<string, nat>, c: EducationCursor, rows: seq<Value>)
    requires c.years == []
    requires forall i :: 0 <= i < |rows| && rows[i].JObject? && rows[i].fields != [] ==> !Contains(FirstText(rows[i].fields), "P\U{e9}riode")
    ensures EducationRows(regions, c, rows).batch.pending == c.batch.pending
    ensures EducationRows(regions, c, rows).years == []
  {
    if rows != [] {
      var init := rows[..|rows| - 1];
      assert forall i :: 0 <= i < |init| ==> init[i] == rows[i];
      NoYearsNothingCollected(regions, c, init);
    }
  }

  // ---------------------------------------------------------------------------
  // bulk_create(…, ignore_conflicts=True)
  // ---------------------------------------------------------------------------

  /** Two keys clash under the database's unique constraint: equal, and with
      no NULL column, since SQL never finds two NULLs equal. */
  predicate SqlClash(a: ValueKey, b: ValueKey) {
    a == b && a.region.Some? && a.department.Some? && a.commune.Some?
  }

  /** The insert as the database performs it: a row is skipped only when it
      clashes with a stored or an earlier row. */
  function BulkCreateSql(rows: seq<ValueRow>, pending: seq<ValueRow>): seq<ValueRow> {
    if pending == [] then rows
    else
      var before := BulkCreateSql(rows, pending[..|pending| - 1]);
      var v := pending[|pending| - 1];
      if exists j :: 0 <= j < |before| && SqlClash(Key(before[j]), Key(v)) then before else before + [v]
  }

  /** Every value the script collects has no department, so none clashes:
      running the script twice stores every value twice. */
  lemma RerunDuplicatesSql(rows: seq<ValueRow>, v: ValueRow)
    requires v.department.None?
    ensures var twice := BulkCreateSql(BulkCreateSql(rows, [v]), [v]);
      twice == rows + [v, v] && !UniqueKeys(twice)
  {
    assert [v][..0] == [];
    assert BulkCreateSql(rows, []) == rows;
    assert forall j :: 0 <= j < |rows| ==> !SqlClash(Key(rows[j]), Key(v));
    var once := BulkCreateSql(rows, [v]);
    assert once == rows + [v];
    assert forall j :: 0 <= j < |once| ==> !SqlClash(Key(once[j]), Key(v));
    assert BulkCreateSql(once, [v]) == once + [v];
    assert (rows + [v]) + [v] == rows + [v, v];
    var twice := rows + [v, v];
    assert Key(twice[|rows|]) == Key(twice[|rows| + 1]);
  }

  /** Rows with no department, as every value the script collects. */
  predicate Unkeyed(rows: seq<ValueRow>) {
    forall k :: 0 <= k < |rows| ==> rows[k].department.None?
  }

  /** Rows with no department never clash, so the database inserts all of
      them, in order, after the stored rows. */
  lemma {:induction false} SqlAppendsUnkeyed(rows: seq<ValueRow>, pending: seq<ValueRow>)
    requires Unkeyed(pending)
    ensures BulkCreateSql(rows, pending) == rows + pending
  {
    if pending != [] {
      var init := pending[..|pending| - 1];
      var v := pending[|pending| - 1];
      assert Unkeyed(init) by {
        forall k | 0 <= k < |init| ensures init[k].department.None? {
          assert init[k] == pending[k];
        }
      }
      SqlAppendsUnkeyed(rows, init);
      var before := rows + init;
      assert v.department.None?;
      assert !exists j :: 0 <= j < |before| && SqlClash(Key(before[j]), Key(v));
      assert pending == init + [v];
    }
  }

  /** The insert with the key the rest of the importers keep unique (missing
      territories compare equal): a value is inserted unless its key is
      already stored, so the first collected value of a key wins. */
  function BulkCreate(rows: seq<ValueRow>, pending: seq<ValueRow>): seq<ValueRow> {
    if pending == [] then rows
    else
      var before := BulkCreate(rows, pending[..|pending| - 1]);
      var v := pending[|pending| - 1];
      if HasKey(before, Key(v)) then before else before + [v]
  }

  predicate HasKey(rows: seq<ValueRow>, k: ValueKey) {
    exists j :: 0 <= j < |rows| && Key(rows[j]) == k
  }

  /** Stored rows are kept, keys stay unique, and every collected key is
      stored afterwards. */
  lemma {:induction false} BulkCreateSpec(rows: seq<ValueRow>, pending: seq<ValueRow>)
    requires UniqueKeys(rows)
    ensures var r := BulkCreate(rows, pending);
      && |rows| <= |r| && r[..|rows|] == rows && UniqueKeys(r)
      && (forall i :: 0 <= i < |pending| ==> HasKey(r, Key(pending[i])))
  {
    if pending != [] {
      var init := pending[..|pending| - 1];
      var v := pending[|pending| - 1];
      BulkCreateSpec(rows, init);
      var before := BulkCreate(rows, init);
      var r := BulkCreate(rows, pending);
      if !HasKey(before, Key(v)) {
        assert r == before + [v];
        assert r[..|rows|] == before[..|rows|];
        forall i, j | 0 <= i < j < |r| ensures Key(r[i]) != Key(r[j]) {
          if j < |before| {
            assert r[i] == before[i] && r[j] == before[j];
          } else {
            assert r[i] == before[i];
          }
        }
      }
      forall i | 0 <= i < |pending| ensures HasKey(r, Key(pending[i])) {
        if i < |init| {
          assert pending[i] == init[i];
          var j :| 0 <= j < |before| && Key(before[j]) == Key(init[i]);
          assert r[j] == before[j];
        } else if !HasKey(before, Key(v)) {
          assert r[|before|] == v;
        }
      }
    }
  }

  /** Inserting the same values again changes nothing. */
  lemma {:induction false} BulkCreateIdempotent(rows: seq<ValueRow>, pending: seq<ValueRow>)
    requires UniqueKeys(rows)
    ensures BulkCreate(BulkCreate(rows, pending), pending) == BulkCreate(rows, pending)
  {
    BulkCreateSpec(rows, pending);
    AllPresent(BulkCreate(rows, pending), pending);
  }

  lemma {:induction false} AllPresent(rows: seq<ValueRow>, pending: seq<ValueRow>)
    requires forall i :: 0 <= i < |pending| ==> HasKey(rows, Key(pending[i]))
    ensures BulkCreate(rows, pending) == rows
  {
    if pending != [] {
      var init := pending[..|pending| - 1];
      assert forall i :: 0 <= i < |init| ==> init[i] == pending[i];
      AllPresent(rows, init);
    }
  }

  // ---------------------------------------------------------------------------
  // The script
  // ---------------------------------------------------------------------------

  /** The tables after one workbook: the indicators created, and the
      collected values inserted unless the script raised. */
  datatype Tables = Tables(indicators: seq<Indicator>, values: seq<ValueRow>, failed: Option<ScriptError>)

  function Commit(values: seq<ValueRow>, b: Batch): Tables {
    Tables(b.table, if b.failed.None? then BulkCreateSql(values, b.pending) else values, b.failed)
  }

  /** `process_sante()` then `process_education()`; an exception in the
      first stops the script before the second. */
  function Script(regions: seq<(nat, string)>, t: Tables, health: Value, education: Value): Tables {
    var index := RegionsMap(regions);
    var h := Commit(t.values, HealthWorkbook(index, Batch(t.indicators, [], None), health));
    if h.failed.Some? then h
    else Commit(h.values, EducationWorkbook(index, Batch(h.indicators, [], None), education))
  }

  /** A health workbook that is not an object raises at once: nothing is
      created, nothing is inserted, and the education workbook is not read. */
  lemma HealthNotObjectRaises(regions: seq<(nat, string)>, t: Tables, health: Value, education: Value)
    requires !health.JObject?
    ensures Script(regions, t, health, education) == Tables(t.indicators, t.values, Some(Raised(AttributeError)))
  {
  }

  /** The script appends every value the health workbook collects, and then
      every value the education workbook collects, after the values stored
      before it: none is skipped as a duplicate, whatever is stored. */
  lemma ScriptAppends(regions: seq<(nat, string)>, t: Tables, health: Value, education: Value)
    ensures var index := RegionsMap(regions);
      var hb := HealthWorkbook(index, Batch(t.indicators, [], None), health);
      var eb := EducationWorkbook(index, Batch(hb.table, [], None), education);
      var r := Script(regions, t, health, education);
      r.values == if hb.failed.Some? then t.values
                  else if eb.failed.Some? then t.values + hb.pending
                  else t.values + hb.pending + eb.pending
  {
    var index := RegionsMap(regions);
    var hb := HealthWorkbook(index, Batch(t.indicators, [], None), health);
    if Items(health).Some? {
      HealthGroupsUnkeyed(index, Batch(t.indicators, [], None), Items(health).value);
    }
    CommitAppends(t.values, hb);
    var h := Commit(t.values, hb);
    if h.failed.None? {
      var eb := EducationWorkbook(index, Batch(h.indicators, [], None), education);
      if Items(education).Some? {
        EducationGroupsUnkeyed(index, Batch(h.indicators, [], None), Items(education).value);
      }
      CommitAppends(h.values, eb);
    }
  }

  /** Committing a batch that did not raise appends all its values to the
      stored ones; a batch that raised stores nothing. */
  lemma CommitAppends(values: seq<ValueRow>, b: Batch)
    requires Unkeyed(b.pending)
    ensures Commit(values, b).values == if b.failed.None? then values + b.pending else values
  {
    SqlAppendsUnkeyed(values, b.pending);
  }

  // ---------------------------------------------------------------------------
  // Every collected value has no department
  // ---------------------------------------------------------------------------

  lemma UnkeyedConcat(a: seq<ValueRow>, b: seq<ValueRow>)
    requires Unkeyed(a) && Unkeyed(b)
    ensures Unkeyed(a + b)
  {
    forall k | 0 <= k < |a + b| ensures (a + b)[k].department.None? {
      if k < |a| {
        assert (a + b)[k] == a[k];
      } else {
        assert (a + b)[k] == b[k - |a|];
      }
    }
  }

  lemma HealthCellsUnkeyed(id: nat, region: Option<nat>, row: Row)
    requires HealthCells(id, region, row).Ok?
    ensures Unkeyed(HealthCells(id, region, row).value)
  {
    HealthCellsShape(id, region, row);
  }

  lemma HealthRowUnkeyed(regions: Dict<string, nat>, c: HealthCursor, group: string, row: Value)
    requires Unkeyed(c.batch.pending)
    ensures Unkeyed(HealthRow(regions, c, group, row).batch.pending)
  {
    if row.JObject? {
      var period := GetOrNull(row.fields, "P\U{e9}riode");
      if !Truthy(period) || period.JStr? {
        var region := if Truthy(period) then GetRegion(regions, period.s) else c.region;
        var raw := GetOrNull(row.fields, "Unnamed: 1");
        if Truthy(raw) && raw.JStr? && !Contains(Lower(raw.s), "indicateurs") {
          var name := Strip(RemoveAll(raw.s, "(*)"));
          var category := if Contains(name, "Budget") then Resources else Access;
          var got := GetOrCreateNamed(c.batch.table, NewIndicator(HealthCode(group, name), name, Health, category, ""));
          if got.Ok? {
            var cells := HealthCells(got.value.id, region, row.fields);
            if cells.Ok? {
              HealthCellsUnkeyed(got.value.id, region, row.fields);
              UnkeyedConcat(c.batch.pending, cells.value);
              assert HealthRow(regions, c, group, row).batch.pending == c.batch.pending + cells.value;
            }
          }
        }
      }
    }
  }

  lemma {:induction false} HealthRowsUnkeyed(regions: Dict<string, nat>, c: HealthCursor, group: string, rows: seq<Value>)
    requires Unkeyed(c.batch.pending)
    ensures Unkeyed(HealthRows(regions, c, group, rows).batch.pending)
  {
    if rows != [] {
      HealthRowsUnkeyed(regions, c, group, rows[..|rows| - 1]);
      HealthRowUnkeyed(regions, HealthRows(regions, c, group, rows[..|rows| - 1]), group, rows[|rows| - 1]);
    }
  }

  lemma {:induction false} HealthSheetsUnkeyed(regions: Dict<string, nat>, b: Batch, group: string, sheets: seq<(string, Value)>)
    requires Unkeyed(b.pending)
    ensures Unkeyed(HealthSheets(regions, b, group, sheets).pending)
  {
    if sheets != [] {
      HealthSheetsUnkeyed(regions, b, group, sheets[..|sheets| - 1]);
      var before := HealthSheets(regions, b, group, sheets[..|sheets| - 1]);
      var rows := Iterate(sheets[|sheets| - 1].1);
      if rows.Some? {
        HealthRowsUnkeyed(regions, HealthCursor(before, None), group, rows.value);
      }
    }
  }

  /** Every value the health workbook collects has no department. */
  lemma {:induction false} HealthGroupsUnkeyed(regions: Dict<string, nat>, b: Batch, groups: seq<(string, Value)>)
    requires Unkeyed(b.pending)
    ensures Unkeyed(HealthGroups(regions, b, groups).pending)
  {
    if groups != [] {
      HealthGroupsUnkeyed(regions, b, groups[..|groups| - 1]);
      var before := HealthGroups(regions, b, groups[..|groups| - 1]);
      var sheets := Items(groups[|groups| - 1].1);
      if sheets.Some? {
        HealthSheetsUnkeyed(regions, before, groups[|groups| - 1].0, sheets.value);
      }
    }
  }

  lemma {:induction false} EducationCellsUnkeyed(years: Dict<string, nat>, id: nat, region: Option<nat>, row: Row)
    ensures EducationCells(years, id, region, row).Ok? ==> Unkeyed(EducationCells(years, id, region, row).value)
  {
    if years != [] {
      EducationCellsUnkeyed(years[..|years| - 1], id, region, row);
      var r := EducationCells(years, id, region, row);
      var before := EducationCells(years[..|years| - 1], id, region, row);
      if r.Ok? && r != before {
        var col := years[|years| - 1];
        var x := CleanValue(GetOrNull(row, col.0)).value.value;
        UnkeyedConcat(before.value, [Collected(id, region, col.1, x, "education.json")]);
      }
    }
  }

  lemma EducationRowUnkeyed(regions: Dict<string, nat>, c: EducationCursor, row: Value)
    requires Unkeyed(c.batch.pending)
    ensures Unkeyed(EducationRow(regions, c, row).batch.pending)
  {
    if Truthy(row) && row.JObject? && c.years != [] && c.indicator.Some? {
      var regionName := Strip(FirstText(row.fields));
      var cells := EducationCells(c.years, c.indicator.value, GetRegion(regions, regionName), row.fields);
      EducationCellsUnkeyed(c.years, c.indicator.value, GetRegion(regions, regionName), row.fields);
      if cells.Ok? {
        UnkeyedConcat(c.batch.pending, cells.value);
      }
    }
  }

  lemma {:induction false} EducationRowsUnkeyed(regions: Dict<string, nat>, c: EducationCursor, rows: seq<Value>)
    requires Unkeyed(c.batch.pending)
    ensures Unkeyed(EducationRows(regions, c, rows).batch.pending)
  {
    if rows != [] {
      EducationRowsUnkeyed(regions, c, rows[..|rows| - 1]);
      EducationRowUnkeyed(regions, EducationRows(regions, c, rows[..|rows| - 1]), rows[|rows| - 1]);
    }
  }

  lemma {:induction false} EducationSheetsUnkeyed(regions: Dict<string, nat>, b: Batch, sheets: seq<(string, Value)>)
    requires Unkeyed(b.pending)
    ensures Unkeyed(EducationSheets(regions, b, sheets).pending)
  {
    if sheets != [] {
      EducationSheetsUnkeyed(regions, b, sheets[..|sheets| - 1]);
      var before := EducationSheets(regions, b, sheets[..|sheets| - 1]);
      var rows := Iterate(sheets[|sheets| - 1].1);
      if rows.Some? {
        EducationRowsUnkeyed(regions, EducationCursor(before, [], None), rows.value);
      }
    }
  }

  /** Every value the education workbook collects has no department. */
  lemma {:induction false} EducationGroupsUnkeyed(regions: Dict<string, nat>, b: Batch, groups: seq<(string, Value)>)
    requires Unkeyed(b.pending)
    ensures Unkeyed(EducationGroups(regions, b, groups).pending)
  {
    if groups != [] {
      EducationGroupsUnkeyed(regions, b, groups[..|groups| - 1]);
      var before := EducationGroups(regions, b, groups[..|groups| - 1]);
      var sheets := Items(groups[|groups| - 1].1);
      if sheets.Some? {
        EducationSheetsUnkeyed(regions, before, sheets.value);
      }
    }
  }

  // ---------------------------------------------------------------------------
  // A raised exception ends each loop
  // ---------------------------------------------------------------------------

  lemma {:induction false} HealthRowsStop(regions: Dict<string, nat>, c: HealthCursor, group: string, rows: seq<Value>, i: nat)
    requires i <= |rows| && HealthRows(regions, c, group, rows[..i]).batch.failed.Some?
    ensures HealthRows(regions, c, group, rows) == HealthRows(regions, c, group, rows[..i])
    decreases |rows| - i
  {
    if i == |rows| {
      assert rows[..i] == rows;
    } else {
      assert rows[..i + 1][..i] == rows[..i];
      HealthRowsStop(regions, c, group, rows, i + 1);
    }
  }

  lemma {:induction false} HealthSheetsStop(regions: Dict<string, nat>, b: Batch, group: string, sheets: seq<(string, Value)>, i: nat)
    requires i <= |sheets| && HealthSheets(regions, b, group, sheets[..i]).failed.Some?
    ensures HealthSheets(regions, b, group, sheets) == HealthSheets(regions, b, group, sheets[..i])
    decreases |sheets| - i
  {
    if i == |sheets| {
      assert sheets[..i] == sheets;
    } else {
      assert sheets[..i + 1][..i] == sheets[..i];
      HealthSheetsStop(regions, b, group, sheets, i + 1);
    }
  }

  lemma {:induction false} HealthGroupsStop(regions: Dict<string, nat>, b: Batch, groups: seq<(string, Value)>, i: nat)
    requires i <= |groups| && HealthGroups(regions, b, groups[..i]).failed.Some?
    ensures HealthGroups(regions, b, groups) == HealthGroups(regions, b, groups[..i])
    decreases |groups| - i
  {
    if i == |groups| {
      assert groups[..i] == groups;
    } else {
      assert groups[..i + 1][..i] == groups[..i];
      HealthGroupsStop(regions, b, groups, i + 1);
    }
  }

  lemma {:induction false} EducationRowsStop(regions: Dict<string, nat>, c: EducationCursor, rows: seq<Value>, i: nat)
    requires i <= |rows| && EducationRows(regions, c, rows[..i]).batch.failed.Some?
    ensures EducationRows(regions, c, rows) == EducationRows(regions, c, rows[..i])
    decreases |rows| - i
  {
    if i == |rows| {
      assert rows[..i] == rows;
    } else {
      assert rows[..i + 1][..i] == rows[..i];
      EducationRowsStop(regions, c, rows, i + 1);
    }
  }

  lemma {:induction false} EducationSheetsStop(regions: Dict<string, nat>, b: Batch, sheets: seq<(string, Value)>, i: nat)
    requires i <= |sheets| && EducationSheets(regions, b, sheets[..i]).failed.Some?
    ensures EducationSheets(regions, b, sheets) == EducationSheets(regions, b, sheets[..i])
    decreases |sheets| - i
  {
    if i == |sheets| {
      assert sheets[..i] == sheets;
    } else {
      assert sheets[..i + 1][..i] == sheets[..i];
      EducationSheetsStop(regions, b, sheets, i + 1);
    }
  }

  lemma {:induction false} EducationGroupsStop(regions: Dict<string, nat>, b: Batch, groups: seq<(string, Value)>, i: nat)
    requires i <= |groups| && EducationGroups(regions, b, groups[..i]).failed.Some?
    ensures EducationGroups(regions, b, groups) == EducationGroups(regions, b, groups[..i])
    decreases |groups| - i
  {
    if i == |groups| {
      assert groups[..i] == groups;
    } else {
      assert groups[..i + 1][..i] == groups[..i];
      EducationGroupsStop(regions, b, groups, i + 1);
    }
  }

  // ---------------------------------------------------------------------------
  // The script's loops
  // ---------------------------------------------------------------------------

  /** `get_or_create` against the indicator table. */
  method GetOrCreateByName(db: Database, made: Indicator) returns (r: Result<nat, ScriptError>)
    modifies db
    ensures var g := GetOrCreateNamed(old(db.indicators), made);
      && (g.Ok? ==> r == Ok(g.value.id) && db.indicators == g.value.table)
      && (g.Err? ==> r == Err(g.error) && db.indicators == old(db.indicators))
    ensures db.values == old(db.values)
  {
    var g := GetOrCreateNamed(db.indicators, made);
    if g.Err? {
      return Err(g.error);
    }
    db.indicators := g.value.table;
    r := Ok(g.value.id);
  }

  /** `for key, val in row.items(): …` of a health row. */
  method CollectHealthCells(id: nat, region: Option<nat>, row: Row) returns (r: Result<seq<ValueRow>, PyError>)
    ensures r == HealthCells(id, region, row)
  {
    var cells: seq<ValueRow> := [];
    var i := 0;
    while i < |row|
      invariant 0 <= i <= |row|
      invariant HealthCells(id, region, row[..i]) == Ok(cells)
    {
      assert row[..i + 1][..i] == row[..i];
      var more := HealthCell(id, region, row[i]);
      if more.Err? {
        HealthCellsStop(id, region, row, i + 1);
        return Err(more.error);
      }
      cells := cells + more.value;
      i := i + 1;
    }
    assert row[..|row|] == row;
    r := Ok(cells);
  }

  lemma {:induction false} HealthCellsStop(id: nat, region: Option<nat>, row: Row, i: nat)
    requires 0 < i <= |row| && HealthCells(id, region, row[..i - 1]).Ok? && HealthCell(id, region, row[i - 1]).Err?
    ensures HealthCells(id, region, row) == Err(HealthCell(id, region, row[i - 1]).error)
    decreases |row| - i
  {
    assert row[..i][..i - 1] == row[..i - 1];
    if i < |row| {
      HealthCellsErr(id, region, row, i);
    } else {
      assert row[..i] == row;
    }
  }

  lemma {:induction false} HealthCellsErr(id: nat, region: Option<nat>, row: Row, i: nat)
    requires 0 < i <= |row| && HealthCells(id, region, row[..i]).Err?
    ensures HealthCells(id, region, row) == HealthCells(id, region, row[..i])
    decreases |row| - i
  {
    if i == |row| {
      assert row[..i] == row;
    } else {
      assert row[..i + 1][..i] == row[..i];
      HealthCellsErr(id, region, row, i + 1);
    }
  }

  /** The body of the row loop of `process_sante`. */
  method HealthRowStep(regions: Dict<string, nat>, db: Database, group: string, row: Value, pending: seq<ValueRow>, region: Option<nat>)
    returns (pending': seq<ValueRow>, region': Option<nat>, failed: Option<ScriptError>)
    modifies db
    ensures HealthCursor(Batch(db.indicators, pending', failed), region')
      == HealthRow(regions, HealthCursor(Batch(old(db.indicators), pending, None), region), group, row)
    ensures db.values == old(db.values)
  {
    pending', region', failed := pending, region, None;
    if !row.JObject? {
      failed := Some(Raised(AttributeError));
      return;
    }
    var period := GetOrNull(row.fields, "P\U{e9}riode");
    if Truthy(period) {
      if !period.JStr? {
        failed := Some(Raised(AttributeError));
        return;
      }
      region' := GetRegion(regions, period.s);
    }
    var raw := GetOrNull(row.fields, "Unnamed: 1");
    if !Truthy(raw) {
      return;
    }
    if !raw.JStr? {
      failed := Some(Raised(AttributeError));
      return;
    }
    if Contains(Lower(raw.s), "indicateurs") {
      return;
    }
    var name := Strip(RemoveAll(raw.s, "(*)"));
    var category := if Contains(name, "Budget") then Resources else Access;
    var got := GetOrCreateByName(db, NewIndicator(HealthCode(group, name), name, Health, category, ""));
    if got.Err? {
      failed := Some(got.error);
      return;
    }
    var cells := CollectHealthCells(got.value, region', row.fields);
    if cells.Err? {
      failed := Some(Raised(cells.error));
      return;
    }
    pending' := pending + cells.value;
  }

  /** The row loop of one health sheet, from no current region. */
  method HealthSheet(regions: Dict<string, nat>, db: Database, group: string, rows: seq<Value>, pending0: seq<ValueRow>)
    returns (pending: seq<ValueRow>, failed: Option<ScriptError>)
    modifies db
    ensures Batch(db.indicators, pending, failed)
      == HealthRows(regions, HealthCursor(Batch(old(db.indicators), pending0, None), None), group, rows).batch
    ensures db.values == old(db.values)
  {
    ghost var start := HealthCursor(Batch(db.indicators, pending0, None), None);
    pending, failed := pending0, None;
    var region: Option<nat> := None;
    var i := 0;
    while i < |rows| && failed.None?
      invariant 0 <= i <= |rows|
      invariant db.values == old(db.values)
      invariant HealthCursor(Batch(db.indicators, pending, failed), region) == HealthRows(regions, start, group, rows[..i])
    {
      assert rows[..i + 1][..i] == rows[..i];
      pending, region, failed := HealthRowStep(regions, db, group, rows[i], pending, region);
      i := i + 1;
    }
    if failed.Some? {
      HealthRowsStop(regions, start, group, rows, i);
    } else {
      assert rows[..|rows|] == rows;
    }
  }

  /** The sheet loop of one health group. */
  method HealthGroup(regions: Dict<string, nat>, db: Database, group: string, sheets: seq<(string, Value)>, pending0: seq<ValueRow>)
    returns (pending: seq<ValueRow>, failed: Option<ScriptError>)
    modifies db
    ensures Batch(db.indicators, pending, failed) == HealthSheets(regions, Batch(old(db.indicators), pending0, None), group, sheets)
    ensures db.values == old(db.values)
  {
    ghost var start := Batch(db.indicators, pending0, None);
    pending, failed := pending0, None;
    var i := 0;
    while i < |sheets| && failed.None?
      invariant 0 <= i <= |sheets|
      invariant db.values == old(db.values)
      invariant Batch(db.indicators, pending, failed) == HealthSheets(regions, start, group, sheets[..i])
    {
      assert sheets[..i + 1][..i] == sheets[..i];
      var rows := Iterate(sheets[i].1);
      if rows.None? {
        failed := Some(Raised(TypeError));
      } else {
        pending, failed := HealthSheet(regions, db, group, rows.value, pending);
      }
      i := i + 1;
    }
    if failed.Some? {
      HealthSheetsStop(regions, start, group, sheets, i);
    } else {
      assert sheets[..|sheets|] == sheets;
    }
  }

  /** `bulk_create(all_values, ignore_conflicts=True)`: the database skips a
      value only when it clashes with a stored one under SQL equality. */
  method InsertCollected(db: Database, pending: seq<ValueRow>)
    modifies db
    ensures db.values == BulkCreateSql(old(db.values), pending) && db.indicators == old(db.indicators)
  {
    var i := 0;
    while i < |pending|
      invariant 0 <= i <= |pending|
      invariant db.values == BulkCreateSql(old(db.values), pending[..i]) && db.indicators == old(db.indicators)
    {
      assert pending[..i + 1][..i] == pending[..i];
      var k := Key(pending[i]);
      var j := 0;
      while j < |db.values| && !SqlClash(Key(db.values[j]), k)
        invariant 0 <= j <= |db.values|
        invariant forall m :: 0 <= m < j ==> !SqlClash(Key(db.values[m]), k)
      {
        j := j + 1;
      }
      if j == |db.values| {
        db.values := db.values + [pending[i]];
      }
      i := i + 1;
    }
    assert pending[..|pending|] == pending;
  }

  /** `process_sante()`: the workbook's groups, then the bulk insert unless
      an exception ended the loop. */
  method ProcessHealth(regions: Dict<string, nat>, db: Database, data: Value)
    returns (failed: Option<ScriptError>)
    modifies db
    ensures Tables(db.indicators, db.values, failed)
      == Commit(old(db.values), HealthWorkbook(regions, Batch(old(db.indicators), [], None), data))
  {
    var items := Items(data);
    if items.None? {
      return Some(Raised(AttributeError));
    }
    var groups := items.value;
    ghost var start := Batch(db.indicators, [], None);
    var pending: seq<ValueRow> := [];
    failed := None;
    var i := 0;
    while i < |groups| && failed.None?
      invariant 0 <= i <= |groups|
      invariant db.values == old(db.values)
      invariant Batch(db.indicators, pending, failed) == HealthGroups(regions, start, groups[..i])
    {
      assert groups[..i + 1][..i] == groups[..i];
      var sheets := Items(groups[i].1);
      if sheets.None? {
        failed := Some(Raised(AttributeError));
      } else {
        pending, failed := HealthGroup(regions, db, groups[i].0, sheets.value, pending);
      }
      i := i + 1;
    }
    if failed.Some? {
      HealthGroupsStop(regions, start, groups, i);
      return;
    }
    assert groups[..|groups|] == groups;
    InsertCollected(db, pending);
  }

  /** The header comprehension of an education sheet. */
  method ReadYears(row: Row) returns (r: Result<Dict<string, nat>, PyError>)
    ensures r == Years(row)
  {
    var years: Dict<string, nat> := [];
    var i := 0;
    while i < |row|
      invariant 0 <= i <= |row|
      invariant Years(row[..i]) == Ok(years)
    {
      assert row[..i + 1][..i] == row[..i];
      var step := YearsStep(years, row[i]);
      if step.Err? {
        YearsStop(row, i + 1);
        return step;
      }
      years := step.value;
      i := i + 1;
    }
    assert row[..|row|] == row;
    r := Ok(years);
  }

  lemma {:induction false} YearsStop(row: Row, i: nat)
    requires 0 < i <= |row| && Years(row[..i]).Err?
    ensures Years(row) == Years(row[..i])
    decreases |row| - i
  {
    if i == |row| {
      assert row[..i] == row;
    } else {
      assert row[..i + 1][..i] == row[..i];
      YearsStop(row, i + 1);
    }
  }

  /** `for i in info: …` over the comma-separated parts of an indicator line. */
  method ReadInfo(parts: seq<string>) returns (info: Info)
    ensures info == InfoOf(parts)
  {
    info := Info("Inconnu", "");
    var i := 0;
    while i < |parts|
      invariant 0 <= i <= |parts|
      invariant info == InfoOf(parts[..i])
    {
      assert parts[..i + 1][..i] == parts[..i];
      var part := parts[i];
      if Contains(part, "Indicateurs") && ':' in part {
        info := info.(name := Strip(Split(part, ':')[1]));
      } else if Contains(part, "Unit\U{e9}") && ':' in part {
        info := info.(unit := Strip(Split(part, ':')[1]));
      }
      i := i + 1;
    }
    assert parts[..|parts|] == parts;
  }

  /** `for col_key, year in years.items(): …` of an education data row. */
  method CollectEducationCells(years: Dict<string, nat>, id: nat, region: Option<nat>, row: Row) returns (r: Result<seq<ValueRow>, PyError>)
    ensures r == EducationCells(years, id, region, row)
  {
    var cells: seq<ValueRow> := [];
    var i := 0;
    while i < |years|
      invariant 0 <= i <= |years|
      invariant EducationCells(years[..i], id, region, row) == Ok(cells)
    {
      assert years[..i + 1][..i] == years[..i];
      var cv := CleanValue(GetOrNull(row, years[i].0));
      if cv.Err? {
        EducationCellsStop(years, id, region, row, i + 1);
        return Err(cv.error);
      }
      if cv.value.Some? {
        cells := cells + [Collected(id, region, years[i].1, cv.value.value, "education.json")];
      }
      i := i + 1;
    }
    assert years[..|years|] == years;
    r := Ok(cells);
  }

  lemma {:induction false} EducationCellsStop(years: Dict<string, nat>, id: nat, region: Option<nat>, row: Row, i: nat)
    requires 0 < i <= |years| && EducationCells(years[..i], id, region, row).Err?
    ensures EducationCells(years, id, region, row) == EducationCells(years[..i], id, region, row)
    decreases |years| - i
  {
    if i == |years| {
      assert years[..i] == years;
    } else {
      assert years[..i + 1][..i] == years[..i];
      EducationCellsStop(years, id, region, row, i + 1);
    }
  }

  /** The body of the row loop of `process_education`. */
  method EducationRowStep(regions: Dict<string, nat>, db: Database, row: Value, pending: seq<ValueRow>,
                          years: Dict<string, nat>, indicator: Option<nat>)
    returns (pending': seq<ValueRow>, years': Dict<string, nat>, indicator': Option<nat>, failed: Option<ScriptError>)
    modifies db
    ensures EducationCursor(Batch(db.indicators, pending', failed), years', indicator')
      == EducationRow(regions, EducationCursor(Batch(old(db.indicators), pending, None), years, indicator), row)
    ensures db.values == old(db.values)
  {
    pending', years', indicator', failed := pending, years, indicator, None;
    if !Truthy(row) {
      return;
    }
    if !row.JObject? {
      failed := Some(Raised(AttributeError));
      return;
    }
    var first := FirstText(row.fields);
    if Contains(first, "P\U{e9}riode") {
      var read := ReadYears(row.fields);
      if read.Err? {
        failed := Some(Raised(read.error));
      } else {
        years' := read.value;
      }
      return;
    }
    if Contains(first, "Fr\U{e9}quence:") {
      var info := ReadInfo(Split(first, ','));
      var got := GetOrCreateByName(db, NewIndicator(EducationCode(info.name), info.name, Education, Infrastructure, info.unit));
      if got.Err? {
        failed := Some(got.error);
      } else {
        indicator' := Some(got.value);
      }
      return;
    }
    var regionName := Strip(first);
    if regionName == "" || years == [] || indicator.None? {
      return;
    }
    var cells := CollectEducationCells(years, indicator.value, GetRegion(regions, regionName), row.fields);
    if cells.Err? {
      failed := Some(Raised(cells.error));
    } else {
      pending' := pending + cells.value;
    }
  }

  /** The row loop of one education sheet, from no years and no indicator. */
  method EducationSheet(regions: Dict<string, nat>, db: Database, rows: seq<Value>, pending0: seq<ValueRow>)
    returns (pending: seq<ValueRow>, failed: Option<ScriptError>)
    modifies db
    ensures Batch(db.indicators, pending, failed)
      == EducationRows(regions, EducationCursor(Batch(old(db.indicators), pending0, None), [], None), rows).batch
    ensures db.values == old(db.values)
  {
    ghost var start := EducationCursor(Batch(db.indicators, pending0, None), [], None);
    pending, failed := pending0, None;
    var years: Dict<string, nat> := [];
    var indicator: Option<nat> := None;
    var i := 0;
    while i < |rows| && failed.None?
      invariant 0 <= i <= |rows|
      invariant db.values == old(db.values)
      invariant EducationCursor(Batch(db.indicators, pending, failed), years, indicator) == EducationRows(regions, start, rows[..i])
    {
      assert rows[..i + 1][..i] == rows[..i];
      pending, years, indicator, failed := EducationRowStep(regions, db, rows[i], pending, years, indicator);
      i := i + 1;
    }
    if failed.Some? {
      EducationRowsStop(regions, start, rows, i);
    } else {
      assert rows[..|rows|] == rows;
    }
  }

  /** The sheet loop of one education group. */
  method EducationGroup(regions: Dict<string, nat>, db: Database, sheets: seq<(string, Value)>, pending0: seq<ValueRow>)
    returns (pending: seq<ValueRow>, failed: Option<ScriptError>)
    modifies db
    ensures Batch(db.indicators, pending, failed) == EducationSheets(regions, Batch(old(db.indicators), pending0, None), sheets)
    ensures db.values == old(db.values)
  {
    ghost var start := Batch(db.indicators, pending0, None);
    pending, failed := pending0, None;
    var i := 0;
    while i < |sheets| && failed.None?
      invariant 0 <= i <= |sheets|
      invariant db.values == old(db.values)
      invariant Batch(db.indicators, pending, failed) == EducationSheets(regions, start, sheets[..i])
    {
      assert sheets[..i + 1][..i] == sheets[..i];
      var rows := Iterate(sheets[i].1);
      if rows.None? {
        failed := Some(Raised(TypeError));
      } else {
        pending, failed := EducationSheet(regions, db, rows.value, pending);
      }
      i := i + 1;
    }
    if failed.Some? {
      EducationSheetsStop(regions, start, sheets, i);
    } else {
      assert sheets[..|sheets|] == sheets;
    }
  }

  /** `process_education()`. */
  method ProcessEducation(regions: Dict<string, nat>, db: Database, data: Value)
    returns (failed: Option<ScriptError>)
    modifies db
    ensures Tables(db.indicators, db.values, failed)
      == Commit(old(db.values), EducationWorkbook(regions, Batch(old(db.indicators), [], None), data))
  {
    var items := Items(data);
    if items.None? {
      return Some(Raised(AttributeError));
    }
    var groups := items.value;
    ghost var start := Batch(db.indicators, [], None);
    var pending: seq<ValueRow> := [];
    failed := None;
    var i := 0;
    while i < |groups| && failed.None?
      invariant 0 <= i <= |groups|
      invariant db.values == old(db.values)
      invariant Batch(db.indicators, pending, failed) == EducationGroups(regions, start, groups[..i])
    {
      assert groups[..i + 1][..i] == groups[..i];
      var sheets := Items(groups[i].1);
      if sheets.None? {
        failed := Some(Raised(AttributeError));
      } else {
        pending, failed := EducationGroup(regions, db, sheets.value, pending);
      }
      i := i + 1;
    }
    if failed.Some? {
      EducationGroupsStop(regions, start, groups, i);
      return;
    }
    assert groups[..|groups|] == groups;
    InsertCollected(db, pending);
  }

  /** `main()`: the regions map, then the two workbooks in order. */
  method RunScript(regionRows: seq<(nat, string)>, db: Database,
                   health: Value, education: Value)
    returns (failed: Option<ScriptError>)
    modifies db
    ensures Tables(db.indicators, db.values, failed)
      == Script(regionRows, Tables(old(db.indicators), old(db.values), None), health, education)
  {
    var regions := IndexRows(regionRows, RegionKey, RegionId);
    failed := ProcessHealth(regions, db, health);
    if failed.Some? {
      return;
    }
    failed := ProcessEducation(regions, db, education);
  }
}
