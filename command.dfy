/** The `handle` of the `populate_data` command: the check of its two
    exclusive options, the two JSON imports, and the decision to fall back to
    synthetic generation for a sector; plus the bound the generator puts on
    each synthetic value. */
module Command {
  import opened Wrappers
  import opened Json
  import opened Catalog
  import opened GeoLookup
  import opened IndicatorStore
  import opened Populate
  import opened EducationImport

  /** The options `handle` reads. */
  datatype Options = Options(onlyJson: bool, onlyGenerate: bool, minHealthValues: int, minEducationValues: int)

  /** What a run did: the values each import wrote and, for each sector,
      whether synthetic values are generated. */
  datatype Run = Run(healthImported: nat, educationImported: nat, generateHealth: bool, generateEducation: bool)

  /** The message of the `CommandError` for the two exclusive options. */
  const BothOnlyOptions := "Utiliser soit --only-json soit --only-generate, pas les deux."

  /** The exception a document that is not an object raises at `data.items()`. */
  const NoItems := "AttributeError"

  /** A decoded document the import calls `.items()` on without success:
      present but not an object. */
  predicate Raises(data: Option<Value>) {
    data.Some? && !data.value.JObject?
  }

  /** The health import of a workbook; `None` (a missing or unreadable file)
      and a document that raises import nothing. */
  function HealthPass(ctx: Context, p: Progress, data: Option<Value>): Progress {
    if data.Some? && data.value.JObject? then HealthGroups(ctx, p, data.value.fields) else p
  }

  /** The education import of a workbook; `None` and a document that raises
      import nothing. */
  function EducationPass(ctx: Context, p: Progress, data: Option<Value>): Progress {
    if data.Some? && data.value.JObject? then EduGroups(ctx, p, data.value.fields) else p
  }

  /** `handle` up to the fallback decision. Both imports count from zero; the
      education import runs on the tables the health import left. The
      `AttributeError` of a document that is not an object escapes `handle`:
      a health document stops the command before anything is written, an
      education document after the health values are stored. */
  method Handle(lookup: Lookup, db: Database, opts: Options, hashOf: string -> int,
                healthData: Option<Value>, healthFile: string,
                educationData: Option<Value>, educationFile: string)
    returns (r: Result<Run, string>)
    modifies db
    ensures r.Err? <==>
      (opts.onlyJson && opts.onlyGenerate) || (!opts.onlyGenerate && (Raises(healthData) || Raises(educationData)))
    ensures opts.onlyJson && opts.onlyGenerate ==> r == Err(BothOnlyOptions)
    ensures !(opts.onlyJson && opts.onlyGenerate) && r.Err? ==> r.error == NoItems
    ensures opts.onlyGenerate || Raises(healthData) ==> db.indicators == old(db.indicators) && db.values == old(db.values)
    ensures r.Ok? && opts.onlyGenerate ==> r.value.healthImported == 0 && r.value.educationImported == 0
    ensures !opts.onlyGenerate && !Raises(healthData) ==>
      var h := HealthPass(ContextOf(lookup, "json:" + healthFile, hashOf), Progress(old(db.indicators), old(db.values), 0, 0), healthData);
      var e := EducationPass(ContextOf(lookup, "json:" + educationFile, hashOf), Progress(h.indicators, h.values, 0, 0), educationData);
      && db.indicators == e.indicators && db.values == e.values
      && (r.Ok? ==> r.value.healthImported == h.imported && r.value.educationImported == e.imported)
    ensures r.Ok? ==> r.value.generateHealth == (!opts.onlyJson && r.value.healthImported < opts.minHealthValues)
    ensures r.Ok? ==> r.value.generateEducation == (!opts.onlyJson && r.value.educationImported < opts.minEducationValues)
  {
    if opts.onlyJson && opts.onlyGenerate {
      return Err(BothOnlyOptions);
    }
    var health := 0;
    var education := 0;
    if !opts.onlyGenerate {
      var h := ImportHealthJson(lookup, db, healthData, healthFile, hashOf);
      if h.Err? {
        return Err(NoItems);
      }
      health := h.value;
      var e := ImportEducationJson(lookup, db, educationData, educationFile, hashOf);
      if e.Err? {
        return Err(NoItems);
      }
      education := e.value;
    }
    var generateHealth := false;
    var generateEducation := false;
    if !opts.onlyJson {
      generateHealth := health < opts.minHealthValues;
      generateEducation := education < opts.minEducationValues;
    }
    r := Ok(Run(health, education, generateHealth, generateEducation));
  }

  /** `--only-json` never generates, and with `--only-generate` the fallback
      runs exactly for the sectors whose minimum is positive. */
  lemma FallbackDecision(opts: Options, run: Run)
    requires run.generateHealth == (!opts.onlyJson && run.healthImported < opts.minHealthValues)
    requires run.generateEducation == (!opts.onlyJson && run.educationImported < opts.minEducationValues)
    requires opts.onlyGenerate && !opts.onlyJson ==> run.healthImported == 0 && run.educationImported == 0
    ensures opts.onlyJson ==> !run.generateHealth && !run.generateEducation
    ensures opts.onlyGenerate && !opts.onlyJson ==>
      run.generateHealth == (0 < opts.minHealthValues) && run.generateEducation == (0 < opts.minEducationValues)
  {
  }

  // ---------------------------------------------------------------------------
  // The bound on a synthetic value
  // ---------------------------------------------------------------------------

  /** Python's `round(x)`: the nearest integer, ties to the even one. */
  function RoundHalfEven(x: real): (n: int)
    ensures (n as real) - 0.5 <= x <= (n as real) + 0.5
  {
    var f := x.Floor;
    var frac := x - f as real;
    if frac < 0.5 then f
    else if frac > 0.5 then f + 1
    else if f % 2 == 0 then f else f + 1
  }

  /** A tie is rounded to an even integer. */
  lemma RoundTieEven(x: real)
    requires x - (x.Floor as real) == 0.5
    ensures RoundHalfEven(x) % 2 == 0
  {
  }

  /** The bound `generate_synthetic_values` puts on a value before storing
      it: a percentage is clamped to [0, 100], a count is rounded and made
      non-negative, anything else is made non-negative. */
  function Clamp(kind: IndicatorType, value: real): (r: real)
    ensures r >= 0.0
    ensures kind == Percentage ==> r <= 100.0 && (0.0 <= value <= 100.0 ==> r == value)
    ensures kind == Count ==> r == r.Floor as real && (value >= 0.0 ==> r == RoundHalfEven(value) as real)
    ensures kind != Percentage && kind != Count ==> r == (if value > 0.0 then value else 0.0)
  {
    if kind == Percentage then (if value < 0.0 then 0.0 else if value > 100.0 then 100.0 else value)
    else if kind == Count then (var n := RoundHalfEven(value); if n > 0 then n as real else 0.0)
    else if value > 0.0 then value else 0.0
  }
}
