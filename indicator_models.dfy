/** The indicator catalogue's records (`Indicator`, `IndicatorValue`): the
    derived fields `save` recomputes, the geographic level of a value and the
    key a value is unique by. Python floats are reals. */
module IndicatorModels {
  import opened Wrappers
  import opened Catalog

  /** An `Indicator` row. Ids are positions in the indicator table. */
  datatype Indicator = Indicator(
    code: string,
    name: string,
    sector: Sector,
    category: Category,
    kind: IndicatorType,
    unit: string,
    description: string,
    target: Option<real>,
    threshold: Option<real>,
    active: bool,
    order: nat)

  /** An `IndicatorValue` row; `indicator`, the territory, and the users are ids. */
  datatype ValueRow = ValueRow(
    indicator: nat,
    region: Option<nat>,
    department: Option<nat>,
    commune: Option<nat>,
    year: nat,
    period: string,
    value: real,
    previous: Option<real>,
    target: Option<real>,
    variation: Option<real>,
    achievement: Option<real>,
    status: ValueStatus,
    validatedBy: Option<nat>,
    validatedAt: Option<int>,
    source: string)

  /** The `unique_together` key of a value. */
  datatype ValueKey = ValueKey(
    indicator: nat,
    region: Option<nat>,
    department: Option<nat>,
    commune: Option<nat>,
    year: nat,
    period: string)

  function Key(v: ValueRow): ValueKey {
    ValueKey(v.indicator, v.region, v.department, v.commune, v.year, v.period)
  }

  /** At most one row per key. */
  predicate UniqueKeys(rows: seq<ValueRow>) {
    forall i, j :: 0 <= i < j < |rows| ==> Key(rows[i]) != Key(rows[j])
  }

  /** A value as the serializer creates it: the given key and value, with
      every other field at its default (status DRAFT). */
  function NewValue(k: ValueKey, value: real): (v: ValueRow)
    ensures Key(v) == k && v.value == value && v.status == Draft
    ensures v.previous.None? && v.variation.None? && v.achievement.None? && v.validatedBy.None?
  {
    ValueRow(k.indicator, k.region, k.department, k.commune, k.year, k.period,
      value, None, None, None, None, Draft, None, None, "")
  }

  /** Python truthiness of an optional float: present and non-zero. */
  predicate NonZero(x: Option<real>) {
    x.Some? && x.value != 0.0
  }

  /** `self.target_value or self.indicator.target_value`. */
  function ChosenTarget(own: Option<real>, fallback: Option<real>): (t: Option<real>)
    ensures NonZero(own) ==> t == own
    ensures !NonZero(own) ==> t == fallback
  {
    if NonZero(own) then own else fallback
  }

  /** The fields `IndicatorValue.save` assigns before persisting:
      `variation` from the previous value when that is non-zero, and
      `achievement_rate` from the chosen target when that is non-zero. */
  function Saved(v: ValueRow, indicatorTarget: Option<real>): (r: ValueRow)
    ensures r == v.(variation := r.variation, achievement := r.achievement)
    ensures NonZero(v.previous) ==>
      r.variation.Some? && r.variation.value * v.previous.value == (v.value - v.previous.value) * 100.0
    ensures !NonZero(v.previous) ==> r.variation == v.variation
    ensures var t := ChosenTarget(v.target, indicatorTarget);
      && (NonZero(t) ==> r.achievement.Some? && r.achievement.value * t.value == v.value * 100.0)
      && (!NonZero(t) ==> r.achievement == v.achievement)
  {
    var t := ChosenTarget(v.target, indicatorTarget);
    v.(variation := if NonZero(v.previous) then Some((v.value - v.previous.value) / v.previous.value * 100.0) else v.variation,
       achievement := if NonZero(t) then Some(v.value / t.value * 100.0) else v.achievement)
  }

  /** Saving twice stores the same row as saving once. */
  lemma SavedIdempotent(v: ValueRow, indicatorTarget: Option<real>)
    ensures Saved(Saved(v, indicatorTarget), indicatorTarget) == Saved(v, indicatorTarget)
  {
  }

  /** The value's own target wins over the indicator's unless it is missing
      or zero; a zero own target falls back to the indicator's. */
  lemma OwnTargetFirst(v: ValueRow, indicatorTarget: Option<real>)
    requires v.target == Some(0.0) && NonZero(indicatorTarget)
    ensures Saved(v, indicatorTarget).achievement.Some?
    ensures Saved(v, indicatorTarget).achievement.value * indicatorTarget.value == v.value * 100.0
  {
  }

  /** A value that reaches its (non-zero) target has a 100% achievement rate. */
  lemma TargetReached(v: ValueRow, indicatorTarget: Option<real>)
    requires NonZero(v.target) && v.value == v.target.value
    ensures Saved(v, indicatorTarget).achievement == Some(100.0)
  {
    var t := v.target.value;
    assert t / t == 1.0;
  }

  datatype GeoLevel = CommuneLevel | DepartmentLevel | RegionLevel | NationalLevel {
    function Value(): string {
      match this
      case CommuneLevel => "commune"
      case DepartmentLevel => "department"
      case RegionLevel => "region"
      case NationalLevel => "national"
    }
  }

  /** `geographic_level`: the finest territory the value is attached to. */
  function GeographicLevel(v: ValueRow): (l: GeoLevel)
    ensures l == CommuneLevel <==> v.commune.Some?
    ensures l == DepartmentLevel <==> v.commune.None? && v.department.Some?
    ensures l == RegionLevel <==> v.commune.None? && v.department.None? && v.region.Some?
  {
    if v.commune.Some? then CommuneLevel
    else if v.department.Some? then DepartmentLevel
    else if v.region.Some? then RegionLevel
    else NationalLevel
  }

  /** `geographic_entity`: `commune or department or region`. It is missing
      exactly at the national level, and otherwise is the territory the
      level names. */
  function GeographicEntity(v: ValueRow): (e: Option<nat>)
    ensures e.None? <==> GeographicLevel(v) == NationalLevel
    ensures GeographicLevel(v) == CommuneLevel ==> e == v.commune
    ensures GeographicLevel(v) == DepartmentLevel ==> e == v.department
    ensures GeographicLevel(v) == RegionLevel ==> e == v.region
  {
    if v.commune.Some? then v.commune
    else if v.department.Some? then v.department
    else v.region
  }

  /** An `IndicatorValue` instance being saved. */
  class IndicatorValue {
    var row: ValueRow

    /** A new value for a key: DRAFT, nothing derived yet. */
    constructor(k: ValueKey, value: real)
      ensures row == NewValue(k, value)
    {
      row := NewValue(k, value);
    }

    /** An instance loaded from a stored row. */
    constructor FromRow(row: ValueRow)
      ensures this.row == row
    {
      this.row := row;
    }

    /** `save()`: recompute the derived fields, then persist. */
    method Save(indicatorTarget: Option<real>)
      modifies this
      ensures row == Saved(old(row), indicatorTarget)
    {
      var variation := row.variation;
      if row.previous.Some? && row.previous.value != 0.0 {
        variation := Some((row.value - row.previous.value) / row.previous.value * 100.0);
      }
      var target := if row.target.Some? && row.target.value != 0.0 then row.target else indicatorTarget;
      var achievement := row.achievement;
      if target.Some? && target.value != 0.0 {
        achievement := Some(row.value / target.value * 100.0);
      }
      row := row.(variation := variation, achievement := achievement);
    }
  }
}
