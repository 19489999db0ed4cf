/** The indicator views: the trend of an indicator's summary, the scoped
    list of values, the validation and rejection of a value, the pending
    list and the comparison guard. The value table is the one the import
    writes; the per-year averages of `summary` come from the database's
    aggregation and are given in year order. */
module IndicatorViews {
  import opened Wrappers
  import opened Catalog
  import opened IndicatorModels
  import opened IndicatorStore
  import opened Accounts
  import opened Scoping
  import Seqs

  datatype Trend = Stable | Increasing | Decreasing {
    function Value(): string {
      match this
      case Stable => "stable"
      case Increasing => "increasing"
      case Decreasing => "decreasing"
    }
  }

  /** The relative change, in percent, between the last two yearly averages. */
  function Change(previous: real, recent: real): real
    requires previous != 0.0
  {
    (recent - previous) / previous * 100.0
  }

  /** `summary` as written: `yearly_values` is still a QuerySet, and indexing
      a QuerySet with a negative number raises ValueError before any cached
      row is read, so with two or more yearly averages `yearly_values[-1]`
      fails and the client gets a 500; with fewer the trend is 'stable'. */
  function SummaryAsWritten(yearly: seq<real>): (r: Result<Trend, int>)
    ensures r.Err? <==> |yearly| >= 2
    ensures r.Err? ==> r.error == 500
    ensures r.Ok? ==> r.value == Stable
  {
    if |yearly| >= 2 then Err(500) else Ok(Stable)
  }

  /** The view as written never reports a rising or a falling trend, even
      when the corrected rule does: two years at 100 and 120 give a 500
      where `SummaryTrend` says increasing. */
  lemma {:induction false} SummaryNeverMoves(yearly: seq<real>)
    ensures SummaryAsWritten(yearly) != Ok(Increasing) && SummaryAsWritten(yearly) != Ok(Decreasing)
    ensures SummaryAsWritten([100.0, 120.0]) == Err(500) && SummaryTrend([100.0, 120.0]) == Increasing
  {
    assert (120.0 - 100.0) * 100.0 > 5.0 * 100.0;
  }

  /** `summary`'s trend as evidently intended (the averages read from the
      evaluated list, e.g. `list(yearly_values)`): stable unless there are two yearly averages and the
      earlier one is positive; then increasing above a 5% rise and
      decreasing below a 5% fall. Stated without division. */
  function SummaryTrend(yearly: seq<real>): (t: Trend)
    ensures t == Increasing <==>
      |yearly| >= 2 && yearly[|yearly| - 2] > 0.0
      && (yearly[|yearly| - 1] - yearly[|yearly| - 2]) * 100.0 > 5.0 * yearly[|yearly| - 2]
    ensures t == Decreasing <==>
      |yearly| >= 2 && yearly[|yearly| - 2] > 0.0
      && (yearly[|yearly| - 1] - yearly[|yearly| - 2]) * 100.0 < -5.0 * yearly[|yearly| - 2]
  {
    if |yearly| < 2 then Stable
    else
      var recent := yearly[|yearly| - 1];
      var previous := yearly[|yearly| - 2];
      if previous > 0.0 then
        ChangeBounds(previous, recent);
        var change := Change(previous, recent);
        if change > 5.0 then Increasing
        else if change < -5.0 then Decreasing
        else Stable
      else Stable
  }

  /** The change exceeds a bound exactly when the cross-multiplied
      difference does. */
  lemma ChangeBounds(previous: real, recent: real)
    requires previous > 0.0
    ensures Change(previous, recent) > 5.0 <==> (recent - previous) * 100.0 > 5.0 * previous
    ensures Change(previous, recent) < -5.0 <==> (recent - previous) * 100.0 < -5.0 * previous
  {
    var q := (recent - previous) / previous;
    assert q * previous == recent - previous;
    assert Change(previous, recent) == q * 100.0;
    if q * 100.0 > 5.0 {
      assert (recent - previous) * 100.0 == q * 100.0 * previous;
    }
    if (recent - previous) * 100.0 > 5.0 * previous {
      assert q * 100.0 * previous > 5.0 * previous;
    }
    if q * 100.0 < -5.0 {
      assert (recent - previous) * 100.0 == q * 100.0 * previous;
    }
    if (recent - previous) * 100.0 < -5.0 * previous {
      assert q * 100.0 * previous < -5.0 * previous;
    }
  }

  /** Only the last two averages matter. */
  lemma TrendOfLastTwo(older: seq<real>, previous: real, recent: real)
    ensures SummaryTrend(older + [previous, recent]) == SummaryTrend([previous, recent])
  {
  }

  /** A place of a value. */
  function PlaceOf(v: ValueRow): Place {
    Place(v.region, v.department, v.commune)
  }

  /** `IndicatorValueViewSet.get_queryset`. */
  function VisibleValues(u: User, values: seq<ValueRow>): (r: seq<ValueRow>)
    ensures forall i :: 0 <= i < |r| ==> r[i] in values && InScope(ScopeOf(u), PlaceOf(r[i]))
    ensures forall i :: 0 <= i < |values| && InScope(ScopeOf(u), PlaceOf(values[i])) ==> values[i] in r
  {
    Scoped(u, values, PlaceOf)
  }

  /** `pending`: the visible values awaiting validation. */
  function PendingValues(u: User, values: seq<ValueRow>): (r: seq<ValueRow>)
    ensures forall i :: 0 <= i < |r| ==> r[i] in VisibleValues(u, values) && r[i].status == Pending
    ensures forall i :: 0 <= i < |values| && InScope(ScopeOf(u), PlaceOf(values[i])) && values[i].status == Pending ==> values[i] in r
  {
    var visible := VisibleValues(u, values);
    var r := Seqs.Where(visible, (v: ValueRow) => v.status == Pending);
    assert forall v :: v in visible ==> exists i :: 0 <= i < |visible| && visible[i] == v;
    r
  }

  /** Who may validate a value: admin, institution, or a sector user. */
  predicate MayValidate(u: User) {
    IsAdmin(u) || IsInstitution(u) || u.role.Value() == "sector_health" || u.role.Value() == "sector_education"
  }

  /** Who may reject a value: admin or institution only. */
  predicate MayReject(u: User) {
    IsAdmin(u) || IsInstitution(u)
  }

  /** Rejecting needs strictly more than validating: a sector user may
      validate but not reject, and contributors, local managers and
      viewers may do neither. */
  lemma RejectNarrowerThanValidate(u: User)
    ensures MayReject(u) ==> MayValidate(u)
    ensures MayValidate(u) && !MayReject(u) <==> IsSectorUser(u)
    ensures !MayValidate(u) <==> u.role == LocalManager || u.role == Contributor || u.role == Viewer
  {
  }

  /** The indicator's own target, which `save` falls back to. */
  function IndicatorTarget(indicators: seq<Indicator>, v: ValueRow): Option<real> {
    if v.indicator < |indicators| then indicators[v.indicator].target else None
  }

  /** The value as `validate` stores it: validated by the requester at
      `now`, then saved (which recomputes the derived fields). */
  function ValidatedRow(indicators: seq<Indicator>, v: ValueRow, validator: User, now: int): (r: ValueRow)
    ensures r.status == Validated && r.validatedBy == Some(validator.id) && r.validatedAt == Some(now)
    ensures Key(r) == Key(v) && r.value == v.value
  {
    Saved(v.(status := Validated, validatedBy := Some(validator.id), validatedAt := Some(now)), IndicatorTarget(indicators, v))
  }

  /** The value as `reject` stores it. */
  function RejectedRow(indicators: seq<Indicator>, v: ValueRow): (r: ValueRow)
    ensures r.status == Rejected && r.validatedBy == v.validatedBy && r.validatedAt == v.validatedAt
    ensures Key(r) == Key(v) && r.value == v.value
  {
    Saved(v.(status := Rejected), IndicatorTarget(indicators, v))
  }

  /** The detail lookup of an action: the value at position `pk`, if the
      user's queryset holds it (404 otherwise). */
  predicate Found(u: User, values: seq<ValueRow>, pk: nat) {
    pk < |values| && InScope(ScopeOf(u), PlaceOf(values[pk]))
  }

  /** `validate`: 404 outside the user's queryset, 403 without the right,
      otherwise the value is validated and saved. */
  method Validate(db: Database, u: User, pk: nat, now: int) returns (code: int)
    modifies db
    ensures !Found(u, old(db.values), pk) ==> code == 404 && db.values == old(db.values)
    ensures Found(u, old(db.values), pk) && !MayValidate(u) ==> code == 403 && db.values == old(db.values)
    ensures Found(u, old(db.values), pk) && MayValidate(u) ==>
      code == 200 && db.values == old(db.values)[pk := ValidatedRow(db.indicators, old(db.values)[pk], u, now)]
    ensures db.indicators == old(db.indicators)
  {
    if !Found(u, db.values, pk) {
      return 404;
    }
    if !(IsAdmin(u) || IsInstitution(u) || u.role.Value() == "sector_health" || u.role.Value() == "sector_education") {
      return 403;
    }
    var v := db.values[pk];
    v := v.(status := Validated, validatedBy := Some(u.id), validatedAt := Some(now));
    var target := if v.indicator < |db.indicators| then db.indicators[v.indicator].target else None;
    var saved := new IndicatorValue.FromRow(v);
    saved.Save(target);
    db.values := db.values[pk := saved.row];
    code := 200;
  }

  /** `reject`: 404 outside the user's queryset, 403 unless admin or
      institution, otherwise the value is rejected and saved. */
  method Reject(db: Database, u: User, pk: nat) returns (code: int)
    modifies db
    ensures !Found(u, old(db.values), pk) ==> code == 404 && db.values == old(db.values)
    ensures Found(u, old(db.values), pk) && !MayReject(u) ==> code == 403 && db.values == old(db.values)
    ensures Found(u, old(db.values), pk) && MayReject(u) ==>
      code == 200 && db.values == old(db.values)[pk := RejectedRow(db.indicators, old(db.values)[pk])]
    ensures db.indicators == old(db.indicators)
  {
    if !Found(u, db.values, pk) {
      return 404;
    }
    if !(IsAdmin(u) || IsInstitution(u)) {
      return 403;
    }
    var v := db.values[pk].(status := Rejected);
    var target := if v.indicator < |db.indicators| then db.indicators[v.indicator].target else None;
    var saved := new IndicatorValue.FromRow(v);
    saved.Save(target);
    db.values := db.values[pk := saved.row];
    code := 200;
  }

  /** One entry of `compare`. */
  datatype Comparison = Comparison(region: Option<nat>, value: real, achievement: Option<real>)

  function ComparisonOf(v: ValueRow): Comparison {
    Comparison(v.region, v.value, v.achievement)
  }

  /** `compare`: 400 unless both the indicator and the year are given;
      otherwise one entry per validated value of that indicator and year,
      from the whole table (the user's scope is not applied). */
  function Compare(values: seq<ValueRow>, indicator: Option<nat>, year: Option<nat>): (r: Result<seq<Comparison>, int>)
    ensures r.Err? <==> indicator.None? || year.None?
    ensures r.Err? ==> r.error == 400
    ensures r.Ok? ==> forall i :: 0 <= i < |r.value| ==> exists v ::
      v in values && v.indicator == indicator.value && v.year == year.value && v.status == Validated && r.value[i] == ComparisonOf(v)
    ensures r.Ok? ==> forall v ::
      v in values && v.indicator == indicator.value && v.year == year.value && v.status == Validated ==> ComparisonOf(v) in r.value
  {
    if indicator.None? || year.None? then Err(400)
    else
      var matching := Seqs.Where(values, (v: ValueRow) => v.indicator == indicator.value && v.year == year.value && v.status == Validated);
      var entries := seq(|matching|, k requires 0 <= k < |matching| => ComparisonOf(matching[k]));
      assert forall v :: v in values ==> exists i :: 0 <= i < |values| && values[i] == v;
      assert forall i :: 0 <= i < |entries| ==> matching[i] in matching && entries[i] == ComparisonOf(matching[i]);
      assert forall v :: v in matching ==> exists k :: 0 <= k < |matching| && matching[k] == v && entries[k] == ComparisonOf(v);
      Ok(entries)
  }
}
