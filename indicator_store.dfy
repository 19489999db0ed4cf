/** The import command's writes to the indicator tables:
    `_get_or_create_indicator` (reuse an indicator by sector and name, else
    create it under a generated code) and `_upsert_indicator_value` (one
    validated value per territory and year). The tables are sequences whose
    positions are the row ids. */
module IndicatorStore {
  import opened Wrappers
  import opened Text
  import opened Catalog
  import opened Seqs
  import opened ImportHelpers
  import opened IndicatorModels

  // ---------------------------------------------------------------------------
  // Indicators
  // ---------------------------------------------------------------------------

  /** `" ".join(name.split()).strip()`: the words of the name, one space apart. */
  function CleanLabel(name: string): string {
    Join(SplitWs(name), " ")
  }

  /** The `sector=…, name__iexact=…` filter. */
  predicate Named(ind: Indicator, sector: Sector, name: string) {
    ind.sector == sector && Lower(ind.name) == Lower(name)
  }

  /** Codes are unique (the column constraint), and so is the pair of sector
      and case-folded name, since an indicator is created only when the
      lookup by that pair finds nothing. */
  predicate ValidIndicators(inds: seq<Indicator>) {
    forall i, j :: 0 <= i < j < |inds| ==>
      inds[i].code != inds[j].code && !Named(inds[i], inds[j].sector, inds[j].name)
  }

  /** The arguments of `_get_or_create_indicator`. */
  datatype Request = Request(
    sector: Sector,
    category: Category,
    kind: IndicatorType,
    name: string,
    group: string,
    sheet: string,
    unit: string,
    description: string,
    target: Option<real>,
    threshold: Option<real>)

  /** The indicator ordering `(sector, category, order, name)` between two
      indicators of one sector whose names are equal up to case: `a` sorts
      strictly before `b` by its category, or by its `order` within the
      same category. */
  predicate SortsBefore(a: Indicator, b: Indicator) {
    a.category.Rank() < b.category.Rank()
    || (a.category.Rank() == b.category.Rank() && a.order < b.order)
  }

  /** The `.first()` of the `sector=…, name__iexact=…` filter: the match that
      sorts first by the indicator ordering; among matches the ordering does
      not separate, the one at the lowest position. */
  function FindByName(inds: seq<Indicator>, sector: Sector, name: string): (r: Option<nat>)
    ensures r.None? <==> forall j :: 0 <= j < |inds| ==> !Named(inds[j], sector, name)
    ensures r.Some? ==> r.value < |inds| && Named(inds[r.value], sector, name)
    ensures r.Some? ==> forall j :: 0 <= j < |inds| && Named(inds[j], sector, name) ==>
      && !SortsBefore(inds[j], inds[r.value])
      && (j < r.value ==> SortsBefore(inds[r.value], inds[j]))
  {
    if inds == [] then None
    else
      var n := |inds| - 1;
      var found := FindByName(inds[..n], sector, name);
      assert forall j :: 0 <= j < n ==> inds[..n][j] == inds[j];
      if !Named(inds[n], sector, name) then found
      else if found.None? || SortsBefore(inds[n], inds[found.value]) then Some(n)
      else found
  }

  /** A match that no match sorts before, and that sorts before every
      earlier match, is the one `.first()` returns. */
  lemma FindByNameIs(inds: seq<Indicator>, sector: Sector, name: string, i: nat)
    requires i < |inds| && Named(inds[i], sector, name)
    requires forall j :: 0 <= j < |inds| && Named(inds[j], sector, name) ==>
      && !SortsBefore(inds[j], inds[i])
      && (j < i ==> SortsBefore(inds[i], inds[j]))
    ensures FindByName(inds, sector, name) == Some(i)
  {
    var r := FindByName(inds, sector, name);
    assert r.Some?;
  }

  function FindByCode(inds: seq<Indicator>, code: string): Option<nat> {
    FirstIndex(inds, (ind: Indicator) => ind.code == code)
  }

  /** The update of a reused indicator: its unit, target and threshold are
      set from the request only where they are empty; nothing is overwritten. */
  function Fill(ind: Indicator, req: Request): (r: Indicator)
    ensures r == ind.(unit := r.unit, target := r.target, threshold := r.threshold)
    ensures ind.unit != "" ==> r.unit == ind.unit
    ensures ind.unit == "" ==> r.unit == req.unit
    ensures ind.target.Some? ==> r.target == ind.target
    ensures ind.target.None? ==> r.target == req.target
    ensures ind.threshold.Some? ==> r.threshold == ind.threshold
    ensures ind.threshold.None? ==> r.threshold == req.threshold
  {
    ind.(unit := if req.unit != "" && ind.unit == "" then req.unit else ind.unit,
         target := if req.target.Some? && ind.target.None? then req.target else ind.target,
         threshold := if req.threshold.Some? && ind.threshold.None? then req.threshold else ind.threshold)
  }

  /** The indicator `get_or_create` makes from the defaults, with `order` at
      its column default 0. */
  function Created(code: string, name: string, req: Request): Indicator {
    Indicator(code, name, req.sector, req.category, req.kind, req.unit, req.description,
      req.target, req.threshold, true, 0)
  }

  /** `abs(hash(clean_name)) % 1000`; the hash itself is a parameter. */
  function Suffix(nameHash: int): (s: nat)
    ensures s < 1000
  {
    (if nameHash < 0 then -nameHash else nameHash) % 1000
  }

  datatype Outcome = Outcome(table: seq<Indicator>, id: nat, created: bool)

  /** The decision of `_get_or_create_indicator` once the cleaned name, the
      generated code and the suffixed code are known: reuse by name, else
      create under the code, else (the code belongs to another indicator)
      get or create under the suffixed code. */
  function Decide(inds: seq<Indicator>, req: Request, clean: string, code: string, code2: string): (r: Outcome)
    ensures r.id < |r.table|
    ensures r.created ==> |r.table| == |inds| + 1 && r.table[..|inds|] == inds && r.id == |inds|
    ensures !r.created ==> |r.table| == |inds|
  {
    match FindByName(inds, req.sector, clean)
    case Some(i) => Outcome(inds[i := Fill(inds[i], req)], i, false)
    case None =>
      match FindByCode(inds, code)
      case None => Outcome(inds + [Created(code, clean, req)], |inds|, true)
      case Some(j) =>
        if Lower(inds[j].name) == Lower(clean) && inds[j].sector == req.sector then
          Outcome(inds, j, false)
        else
          match FindByCode(inds, code2)
          case Some(k) => Outcome(inds, k, false)
          case None => Outcome(inds + [Created(code2, clean, req)], |inds|, true)
  }

  /** The code generated for a request and a name. */
  function CodeFor(req: Request, name: string): (code: string)
    ensures |code| <= 50
  {
    BuildIndicatorCode(req.sector.Value(), req.group, req.sheet, name)
  }

  /** The suffixed name used after a code collision. */
  function SuffixedName(clean: string, nameHash: int): string {
    clean + "-" + NatToString(Suffix(nameHash))
  }

  /** `_get_or_create_indicator`: the new indicator table, the id returned
      and the `created` flag. */
  function GetOrCreate(inds: seq<Indicator>, req: Request, nameHash: int): Outcome {
    var clean := CleanLabel(req.name);
    Decide(inds, req, clean, CodeFor(req, clean), CodeFor(req, SuffixedName(clean, nameHash)))
  }

  // The properties below hold for any cleaned name and codes, so they hold
  // for those `GetOrCreate` computes.

  /** The table keeps unique codes and unique (sector, name) pairs. */
  lemma DecideValid(inds: seq<Indicator>, req: Request, clean: string, code: string, code2: string)
    requires ValidIndicators(inds)
    ensures ValidIndicators(Decide(inds, req, clean, code, code2).table)
  {
    var r := Decide(inds, req, clean, code, code2);
    match FindByName(inds, req.sector, clean)
    case Some(i) =>
      assert forall j :: 0 <= j < |inds| ==>
        r.table[j].code == inds[j].code && r.table[j].sector == inds[j].sector && r.table[j].name == inds[j].name;
    case None =>
      if r.created {
        var n := r.table[|inds|];
        assert n.name == clean && n.sector == req.sector;
        assert forall j :: 0 <= j < |inds| ==> inds[j].code != n.code;
        assert forall j :: 0 <= j < |inds| ==> !Named(inds[j], n.sector, n.name);
      }
  }

  /** An indicator of the same sector whose name matches case-insensitively
      is reused, not created, and only its empty fields are filled. */
  lemma DecideReuses(inds: seq<Indicator>, req: Request, clean: string, code: string, code2: string, i: nat)
    requires ValidIndicators(inds)
    requires i < |inds| && Named(inds[i], req.sector, clean)
    ensures Decide(inds, req, clean, code, code2) == Outcome(inds[i := Fill(inds[i], req)], i, false)
  {
  }

  /** An indicator is created only when no indicator of the sector has the
      name and the code it gets is held by no other indicator; it carries the
      name, the request's sector, category, type, unit, description, target
      and threshold, and is active. */
  lemma DecideCreates(inds: seq<Indicator>, req: Request, clean: string, code: string, code2: string)
    requires Decide(inds, req, clean, code, code2).created
    ensures var r := Decide(inds, req, clean, code, code2);
      var n := r.table[r.id];
      && n == Created(n.code, clean, req)
      && (n.code == code || n.code == code2)
      && FindByName(inds, req.sector, clean).None?
      && forall j :: 0 <= j < |inds| ==> inds[j].code != n.code
  {
  }

  /** The indicator returned has the requested sector and name unless the
      code and the suffixed code are both held by other indicators, in which
      case the holder of the suffixed code is returned as it is. */
  lemma DecideNamed(inds: seq<Indicator>, req: Request, clean: string, code: string, code2: string)
    ensures var r := Decide(inds, req, clean, code, code2);
      || Named(r.table[r.id], req.sector, clean)
      || (&& !r.created
          && r.table == inds
          && FindByName(inds, req.sector, clean).None?
          && FindByCode(inds, code).Some?
          && r.id == FindByCode(inds, code2).value)
  {
    var r := Decide(inds, req, clean, code, code2);
    if FindByName(inds, req.sector, clean).Some? {
      assert r.table[r.id] == Fill(inds[r.id], req);
    }
  }

  /** Asking again for the same indicator returns the same row with
      created=False and leaves the table as it is. */
  lemma DecideIdempotent(inds: seq<Indicator>, req: Request, clean: string, code: string, code2: string)
    ensures var r := Decide(inds, req, clean, code, code2);
      Decide(r.table, req, clean, code, code2) == Outcome(r.table, r.id, false)
  {
    var r := Decide(inds, req, clean, code, code2);
    match FindByName(inds, req.sector, clean)
    case Some(i) =>
      assert forall j :: 0 <= j < |inds| && j != i ==> r.table[j] == inds[j];
      FindByNameIs(r.table, req.sector, clean, i);
    case None =>
      if r.created {
        assert forall j :: 0 <= j < |inds| ==> r.table[j] == inds[j];
        FindByNameIs(r.table, req.sector, clean, |inds|);
      }
  }

  // ---------------------------------------------------------------------------
  // Values
  // ---------------------------------------------------------------------------

  function FindByKey(rows: seq<ValueRow>, k: ValueKey): Option<nat> {
    FirstIndex(rows, (v: ValueRow) => Key(v) == k)
  }

  /** The update `update_or_create` makes to an existing row: it saves only
      the fields of `defaults` (the value, status VALIDATED, the source and
      the indicator's target), so the variation and achievement rate that
      `save()` recomputes keep their stored values. */
  function Written(v: ValueRow, value: real, source: string, indicatorTarget: Option<real>): (r: ValueRow)
    ensures Key(r) == Key(v)
    ensures r.value == value && r.status == Validated && r.source == source && r.target == indicatorTarget
    ensures r.variation == v.variation && r.achievement == v.achievement && r.previous == v.previous
  {
    v.(value := value, status := Validated, source := source, target := indicatorTarget)
  }

  /** The row `update_or_create` inserts for a new key: the defaults on a new
      row, then the fields `save()` computes. */
  function Inserted(k: ValueKey, value: real, source: string, indicatorTarget: Option<real>): (r: ValueRow)
    ensures Key(r) == k
    ensures r.value == value && r.status == Validated && r.source == source && r.target == indicatorTarget
    ensures r.previous.None? && r.variation.None?
  {
    Saved(Written(NewValue(k, value), value, source, indicatorTarget), indicatorTarget)
  }

  /** `_upsert_indicator_value` on the value table, for the key with period "". */
  function Upsert(rows: seq<ValueRow>, k: ValueKey, value: real, source: string, indicatorTarget: Option<real>): (r: seq<ValueRow>)
    ensures |r| == |rows| || |r| == |rows| + 1
    ensures forall j :: 0 <= j < |rows| && Key(rows[j]) != k ==> r[j] == rows[j]
  {
    match FindByKey(rows, k)
    case Some(i) => rows[i := Written(rows[i], value, source, indicatorTarget)]
    case None => rows + [Inserted(k, value, source, indicatorTarget)]
  }

  /** After an upsert exactly one row has the key, and it holds the value
      with status VALIDATED and the given source; the table keeps one row per
      key. */
  lemma UpsertStores(rows: seq<ValueRow>, k: ValueKey, value: real, source: string, indicatorTarget: Option<real>)
    requires UniqueKeys(rows)
    ensures var r := Upsert(rows, k, value, source, indicatorTarget);
      && UniqueKeys(r)
      && exists i ::
        && 0 <= i < |r|
        && Key(r[i]) == k
        && r[i].value == value
        && r[i].status == Validated
        && r[i].source == source
        && forall j :: 0 <= j < |r| && j != i ==> Key(r[j]) != k
  {
    var r := Upsert(rows, k, value, source, indicatorTarget);
    match FindByKey(rows, k)
    case Some(i) =>
      assert Key(r[i]) == Key(rows[i]);
      assert forall j :: 0 <= j < |r| ==> Key(r[j]) == Key(rows[j]);
    case None =>
      var i := |rows|;
      assert Key(r[i]) == k;
      assert forall j :: 0 <= j < |rows| ==> r[j] == rows[j];
  }

  /** Repeating an upsert changes nothing. */
  lemma UpsertIdempotent(rows: seq<ValueRow>, k: ValueKey, value: real, source: string, indicatorTarget: Option<real>)
    ensures var r := Upsert(rows, k, value, source, indicatorTarget);
      Upsert(r, k, value, source, indicatorTarget) == r
  {
    var keyed := (v: ValueRow) => Key(v) == k;
    match FindByKey(rows, k)
    case Some(i) =>
      var w := Written(rows[i], value, source, indicatorTarget);
      WrittenAgain(rows[i], value, source, indicatorTarget);
      FirstIndexUpdate(rows, i, w, keyed);
      var r := rows[i := w];
      assert FindByKey(r, k) == Some(i) && r[i] == w;
      assert r[i := w] == r;
    case None =>
      var w := Inserted(k, value, source, indicatorTarget);
      InsertedAgain(k, value, source, indicatorTarget);
      FirstIndexSnoc(rows, w, keyed);
      var r := rows + [w];
      assert FindByKey(r, k) == Some(|rows|) && r[|rows|] == w;
      assert r[|rows| := w] == r;
  }

  /** Writing the same defaults twice gives the same row, with the same key. */
  lemma WrittenAgain(v: ValueRow, value: real, source: string, indicatorTarget: Option<real>)
    ensures var w := Written(v, value, source, indicatorTarget);
      Written(w, value, source, indicatorTarget) == w && Key(w) == Key(v)
  {
  }

  /** Updating an inserted row with the defaults it was inserted with
      changes nothing. */
  lemma InsertedAgain(k: ValueKey, value: real, source: string, indicatorTarget: Option<real>)
    ensures var w := Inserted(k, value, source, indicatorTarget);
      Written(w, value, source, indicatorTarget) == w
  {
    var w := Inserted(k, value, source, indicatorTarget);
    assert w.(value := value, status := Validated, source := source, target := indicatorTarget) == w;
  }

  // ---------------------------------------------------------------------------
  // The database the command writes to
  // ---------------------------------------------------------------------------

  class Database {
    var indicators: seq<Indicator>
    var values: seq<ValueRow>

    constructor()
      ensures indicators == [] && values == []
    {
      indicators := [];
      values := [];
    }

    /** `_get_or_create_indicator(…)`, returning the id and `created`. The
        suffixed code is computed up front; it is read only after a code
        collision. */
    method GetOrCreateIndicator(req: Request, nameHash: int) returns (id: nat, created: bool)
      modifies this
      ensures Outcome(indicators, id, created) == GetOrCreate(old(indicators), req, nameHash)
      ensures id < |indicators| && values == old(values)
    {
      var clean := CleanLabel(req.name);
      id, created := Apply(req, clean, CodeFor(req, clean), CodeFor(req, SuffixedName(clean, nameHash)));
    }

    /** The lookups and the insert of `_get_or_create_indicator`. */
    method Apply(req: Request, clean: string, code: string, code2: string) returns (id: nat, created: bool)
      modifies this
      ensures Outcome(indicators, id, created) == Decide(old(indicators), req, clean, code, code2)
      ensures values == old(values)
    {
      var found := FindByName(indicators, req.sector, clean);
      if found.Some? {
        indicators := indicators[found.value := Fill(indicators[found.value], req)];
        return found.value, false;
      }
      var existing := FindByCode(indicators, code);
      if existing.None? {
        indicators := indicators + [Created(code, clean, req)];
        return |indicators| - 1, true;
      }
      var j := existing.value;
      var holder := indicators[j];
      if Lower(holder.name) == Lower(clean) && holder.sector == req.sector {
        id, created := j, false;
        return;
      }
      existing := FindByCode(indicators, code2);
      if existing.Some? {
        return existing.value, false;
      }
      indicators := indicators + [Created(code2, clean, req)];
      return |indicators| - 1, true;
    }

    /** `_upsert_indicator_value(indicator, year, value, region, department,
        commune, source)`. */
    method UpsertIndicatorValue(id: nat, year: nat, value: real,
                                region: Option<nat>, department: Option<nat>, commune: Option<nat>,
                                source: string)
      requires id < |indicators|
      modifies this
      ensures values == Upsert(old(values), ValueKey(id, region, department, commune, year, ""),
        value, source, old(indicators)[id].target)
      ensures indicators == old(indicators)
    {
      var k := ValueKey(id, region, department, commune, year, "");
      var target := indicators[id].target;
      var found := FindByKey(values, k);
      if found.Some? {
        values := values[found.value := Written(values[found.value], value, source, target)];
      } else {
        values := values + [Inserted(k, value, source, target)];
      }
    }
  }
}
