/** The parsing helpers of the populate command: year columns, the
    education indicator line, indicator-name cleaning, header and meta-row
    filters, category and type guessing, and indicator codes. */
module ImportHelpers {
  import opened Wrappers
  import opened Text
  import opened Json
  import opened Dicts
  import opened Normalization
  import opened Numbers
  import opened Catalog
  import opened Seqs

  // ---------------------------------------------------------------------------
  // Year columns
  // ---------------------------------------------------------------------------

  /** `re.fullmatch(r"(19|20)\d{2}", k)`. */
  predicate IsYearKey(k: string) {
    && |k| == 4
    && ((k[0] == '1' && k[1] == '9') || (k[0] == '2' && k[1] == '0'))
    && IsDigit(k[2]) && IsDigit(k[3])
  }

  /** `int(k)` of a year key. */
  function YearValue(k: string): (y: nat)
    requires IsYearKey(k)
    ensures 1900 <= y <= 2099
  {
    assert AllDigits(k) by {
      forall c | c in k ensures IsDigit(c) {
        var i :| 0 <= i < 4 && k[i] == c;
      }
    }
    FourDigits(k);
    DigitsValue(k)
  }

  lemma FourDigits(k: string)
    requires |k| == 4 && AllDigits(k)
    ensures DigitsValue(k)
      == DigitValue(k[0]) * 1000 + DigitValue(k[1]) * 100 + DigitValue(k[2]) * 10 + DigitValue(k[3])
  {
    var k3, k2, k1 := k[..3], k[..2], k[..1];
    assert k[..|k| - 1] == k3 && k3[..|k3| - 1] == k2 && k2[..|k2| - 1] == k1 && k1[..|k1| - 1] == [];
    assert k3[2] == k[2] && k2[1] == k[1] && k1[0] == k[0];
    assert DigitsValue(k) == DigitsValue(k3) * 10 + DigitValue(k[3]);
    assert DigitsValue(k3) == DigitsValue(k2) * 10 + DigitValue(k[2]);
    assert DigitsValue(k2) == DigitsValue(k1) * 10 + DigitValue(k[1]);
    assert DigitsValue(k1) == DigitValue(k[0]);
  }

  /** One entry of `row.items()` as `_extract_year_values` sees it: a year
      column whose cell parses gives one pair, any other entry none. */
  function YearCell(cell: (string, Value)): (r: seq<(nat, real)>)
    ensures |r| <= 1
    ensures r != [] <==> IsYearKey(Strip(cell.0)) && ParseNumber(cell.1).Some?
    ensures r != [] ==> r[0] == (YearValue(Strip(cell.0)), ParseNumber(cell.1).value)
  {
    var k := Strip(cell.0);
    if IsYearKey(k) && ParseNumber(cell.1).Some? then [(YearValue(k), ParseNumber(cell.1).value)] else []
  }

  /** What `_extract_year_values(row)` returns: the (year, value) pairs of
      the year columns whose cell parses, in column order. */
  function YearValues(row: seq<(string, Value)>): seq<(nat, real)> {
    FlatMap(row, YearCell)
  }

  /** `_extract_year_values`: the loop over the row's items. */
  method ExtractYearValues(row: seq<(string, Value)>) returns (yearValues: seq<(nat, real)>)
    ensures yearValues == YearValues(row)
  {
    yearValues := [];
    var i := 0;
    while i < |row|
      invariant 0 <= i <= |row|
      invariant yearValues == FlatMap(row[..i], YearCell)
    {
      var key, raw := row[i].0, row[i].1;
      var keyStr := Strip(key);
      FlatMapSnoc(row[..i], row[i], YearCell);
      assert row[..i + 1] == row[..i] + [row[i]];
      if IsYearKey(keyStr) {
        var value := ParseNumber(raw);
        if value.Some? {
          yearValues := yearValues + [(YearValue(keyStr), value.value)];
        }
      }
      i := i + 1;
    }
    assert row[..|row|] == row;
  }

  /** Every returned year lies in 1900..2099. */
  lemma YearValuesInRange(row: seq<(string, Value)>)
    ensures forall p :: p in YearValues(row) ==> 1900 <= p.0 <= 2099
  {
    forall p | p in YearValues(row) ensures 1900 <= p.0 <= 2099 {
      FlatMapMember(row, YearCell, p);
    }
  }

  /** Column order is kept: the pairs of two consecutive slices of a row are
      the pairs of the first followed by the pairs of the second. */
  lemma YearValuesConcat(a: seq<(string, Value)>, b: seq<(string, Value)>)
    ensures YearValues(a + b) == YearValues(a) + YearValues(b)
  {
    FlatMapConcat(a, b, YearCell);
  }

  /** A pair is returned exactly when some column is a year key, that year,
      and its cell parses to that value. */
  lemma YearValuesMember(row: seq<(string, Value)>, y: nat, v: real)
    ensures (y, v) in YearValues(row) <==>
      exists i :: 0 <= i < |row| && IsYearKey(Strip(row[i].0)) && YearValue(Strip(row[i].0)) == y
        && ParseNumber(row[i].1) == Some(v)
  {
    FlatMapMember(row, YearCell, (y, v));
  }

  /** A year key starts at index `i` of `s`. */
  predicate YearAt(s: string, i: nat) {
    i + 4 <= |s| && IsYearKey(s[i..i + 4])
  }

  /** The first `(19|20)\d{2}` in `s` (`re.search`), as a number. */
  function FindYear(s: string): (r: Option<nat>)
    ensures r.Some? ==> 1900 <= r.value <= 2099
  {
    if |s| < 4 then None
    else if IsYearKey(s[..4]) then Some(YearValue(s[..4]))
    else FindYear(s[1..])
  }

  lemma YearAtShift(s: string)
    requires s != []
    ensures forall i: nat :: YearAt(s, i + 1) <==> YearAt(s[1..], i)
  {
    forall i: nat ensures YearAt(s, i + 1) <==> YearAt(s[1..], i) {
      if i + 5 <= |s| {
        assert s[i + 1..i + 5] == s[1..][i..i + 4];
      }
    }
  }

  /** `FindYear` finds nothing exactly when no year occurs, and otherwise the
      leftmost one. */
  lemma {:induction false} FindYearSpec(s: string)
    ensures FindYear(s).None? <==> forall i: nat :: !YearAt(s, i)
    ensures FindYear(s).Some? ==>
      exists i: nat :: YearAt(s, i) && FindYear(s).value == YearValue(s[i..i + 4])
        && forall j: nat :: j < i ==> !YearAt(s, j)
  {
    if |s| < 4 {
    } else if IsYearKey(s[..4]) {
      assert s[0..0 + 4] == s[..4];
      assert YearAt(s, 0);
    } else {
      FindYearSpec(s[1..]);
      YearAtShift(s);
      assert !YearAt(s, 0) by {
        assert s[0..4] == s[..4];
      }
      var r := FindYear(s[1..]);
      if r.Some? {
        var i: nat :| YearAt(s[1..], i) && r.value == YearValue(s[1..][i..i + 4])
          && forall j: nat :: j < i ==> !YearAt(s[1..], j);
        assert s[i + 1..i + 5] == s[1..][i..i + 4];
        forall j: nat | j < i + 1 ensures !YearAt(s, j) {
          if j > 0 {
            assert !YearAt(s[1..], j - 1);
          }
        }
        assert YearAt(s, i + 1);
      } else {
        forall i: nat ensures !YearAt(s, i) {
          if i > 0 {
            assert !YearAt(s[1..], i - 1);
          }
        }
      }
    }
  }

  /** One column of `_extract_year_map_from_education_row`. */
  function YearMapStep(yearMap: Dict<string, nat>, col: string, raw: Value): Dict<string, nat> {
    if raw == JNull then yearMap
    else
      match FindYear(Str(raw))
      case Some(y) => Put(yearMap, col, y)
      case None => yearMap
  }

  /** What `_extract_year_map_from_education_row(row)` returns. */
  function YearMap(row: seq<(string, Value)>): Dict<string, nat> {
    if row == [] then [] else YearMapStep(YearMap(row[..|row| - 1]), row[|row| - 1].0, row[|row| - 1].1)
  }

  /** `_extract_year_map_from_education_row`: the loop over the row's items. */
  method ExtractYearMap(row: seq<(string, Value)>) returns (yearMap: Dict<string, nat>)
    ensures yearMap == YearMap(row)
  {
    yearMap := [];
    var i := 0;
    while i < |row|
      invariant 0 <= i <= |row|
      invariant yearMap == YearMap(row[..i])
    {
      var col, raw := row[i].0, row[i].1;
      if raw != JNull {
        var found := FindYear(Str(raw));
        if found.Some? {
          yearMap := Put(yearMap, col, found.value);
        }
      }
      assert row[..i + 1][..i] == row[..i];
      i := i + 1;
    }
    assert row[..|row|] == row;
  }

  /** The year map has one entry per column, each a year in 1900..2099 read
      from a non-null cell of that column. */
  lemma {:induction false} YearMapShape(row: seq<(string, Value)>)
    ensures DistinctKeys(YearMap(row))
    ensures forall e :: e in YearMap(row) ==> 1900 <= e.1 <= 2099
    ensures forall e :: e in YearMap(row) ==> exists i :: 0 <= i < |row| && row[i].0 == e.0 && row[i].1 != JNull
  {
    if row != [] {
      var init := row[..|row| - 1];
      var last := row[|row| - 1];
      YearMapShape(init);
      var m := YearMap(init);
      assert forall i :: 0 <= i < |init| ==> init[i] == row[i];
      if last.1 != JNull && FindYear(Str(last.1)).Some? {
        var y := FindYear(Str(last.1)).value;
        PutKeepsDistinct(m, last.0, y);
        var r := Put(m, last.0, y);
        forall e | e in r
          ensures 1900 <= e.1 <= 2099
          ensures exists i :: 0 <= i < |row| && row[i].0 == e.0 && row[i].1 != JNull
        {
          var k :| 0 <= k < |r| && r[k] == e;
          if k < |m| && m[k].0 != last.0 {
            assert m[k] in m;
          } else {
            PutShape(m, last.0, y, k);
            assert e == (last.0, y);
            assert row[|row| - 1] == last;
          }
        }
      }
    }
  }

  lemma PutShape(m: Dict<string, nat>, k: string, y: nat, i: nat)
    requires DistinctKeys(m)
    requires i < |Put(m, k, y)| && !(i < |m| && m[i].0 != k)
    ensures Put(m, k, y)[i] == (k, y)
  {
    GetPutAt(m, k, y, i);
  }

  lemma {:induction false} GetPutAt(m: Dict<string, nat>, k: string, y: nat, i: nat)
    requires DistinctKeys(m)
    requires i < |Put(m, k, y)| && !(i < |m| && m[i].0 != k)
    ensures Put(m, k, y)[i] == (k, y)
  {
    if m != [] && m[0].0 != k {
      assert Put(m, k, y) == [m[0]] + Put(m[1..], k, y);
      GetPutAt(m[1..], k, y, i - 1);
    }
  }

  // ---------------------------------------------------------------------------
  // The education indicator line
  // ---------------------------------------------------------------------------

  predicate NotComma(c: char) { c != ',' }

  /** `s[i..]` begins with the lower-case `key`, ignoring case. */
  predicate LabelAt(s: string, i: nat, key: string) {
    i + |key| <= |s| && Lower(s[i..i + |key|]) == key
  }

  /** `\s*:\s*([^,]+)` at the start of `r`, with the group stripped. The
      group is the whole run of non-commas after the colon, since `\s*`
      gives back what `[^,]+` needs. */
  function AfterColon(r: string): (g: Option<string>)
    ensures g.Some? ==> ',' !in g.value
    ensures g.Some? ==> g.value == [] || (!IsSpace(g.value[0]) && !IsSpace(g.value[|g.value| - 1]))
  {
    var t := TrimLeft(r, IsSpace);
    if t != [] && t[0] == ':' then
      var run := TakeWhile(t[1..], NotComma);
      if run == [] then None
      else
        StripInside(run);
        Some(Strip(run))
    else None
  }

  lemma StripInside(s: string)
    ensures forall c :: c in Strip(s) ==> c in s
    ensures Strip(s) == [] || (!IsSpace(Strip(s)[0]) && !IsSpace(Strip(s)[|Strip(s)| - 1]))
  {
    var a, b := StripIsSlice(s);
    forall c | c in Strip(s) ensures c in s {
      var k :| 0 <= k < |Strip(s)| && Strip(s)[k] == c;
      assert s[a + k] == c;
    }
  }

  /** `key`, then optionally one character of `opt`, then `\s*:\s*([^,]+)`,
      at index `i`; the optional character is tried first, as the regex
      engine's backtracking does. */
  function MatchAt(s: string, i: nat, key: string, opt: set<char>): (g: Option<string>)
    ensures g.Some? ==> ',' !in g.value
    ensures g.Some? ==> g.value == [] || (!IsSpace(g.value[0]) && !IsSpace(g.value[|g.value| - 1]))
  {
    if !LabelAt(s, i, key) then None
    else
      var j := i + |key|;
      if j < |s| && LowerChar(s[j]) in opt && AfterColon(s[j + 1..]).Some? then AfterColon(s[j + 1..])
      else AfterColon(s[j..])
  }

  /** `re.search(..., flags=re.IGNORECASE)` from index `i`: the match at the
      leftmost index where one exists. */
  function Search(s: string, i: nat, key: string, opt: set<char>): (g: Option<string>)
    ensures g.None? ==> forall k :: i <= k < |s| ==> MatchAt(s, k, key, opt).None?
    ensures g.Some? ==>
      exists k :: i <= k < |s| && MatchAt(s, k, key, opt) == g
        && forall j :: i <= j < k ==> MatchAt(s, j, key, opt).None?
    decreases |s| - i
  {
    if i >= |s| then None
    else if MatchAt(s, i, key, opt).Some? then MatchAt(s, i, key, opt)
    else Search(s, i + 1, key, opt)
  }

  const IndicatorLabel := "indicateur"
  const IndicatorOpt: set<char> := {'s'}
  const UnitLabel := "unit"
  const UnitOpt: set<char> := {'\U{e9}', 'e'}

  /** `_parse_education_indicator_line(text)`: the text after
      "Indicateur(s) :" up to the next comma, else the whole stripped text;
      and the text after "Unit(é) :", else "". */
  function IndicatorLine(text: string): (r: (string, string))
    ensures Search(text, 0, IndicatorLabel, IndicatorOpt).None? ==> r.0 == Strip(text)
    ensures Search(text, 0, IndicatorLabel, IndicatorOpt).Some? ==> ',' !in r.0
    ensures ',' !in r.1
    ensures r.0 == [] || (!IsSpace(r.0[0]) && !IsSpace(r.0[|r.0| - 1]))
  {
    var indicator := Search(text, 0, IndicatorLabel, IndicatorOpt);
    var unit := Search(text, 0, UnitLabel, UnitOpt);
    StripInside(text);
    (if indicator.Some? then indicator.value else Strip(text), unit.GetOr(""))
  }

  lemma StripSpaceThen(n: string)
    requires n != [] && !IsSpace(n[0]) && !IsSpace(n[|n| - 1])
    ensures Strip(" " + n) == n
  {
    var u := " " + n;
    assert u[1..] == n;
    assert TrimLeft(u, IsSpace) == TrimLeft(n, IsSpace);
    StripUnchanged(n);
    assert TrimLeft(n, IsSpace) == n;
  }

  lemma LabelIndicateur(n: string)
    ensures LabelAt("Indicateur : " + n, 0, IndicatorLabel)
  {
    var s := "Indicateur : " + n;
    LowerIndicateur(s[0..10]);
  }

  lemma LowerIndicateur(w: string)
    requires w == "Indicateur"
    ensures Lower(w) == IndicatorLabel
  {
    var l := Lower(w);
    assert l[0] == 'i';
    assert l[1..] == w[1..];
  }

  lemma AfterSpacedColon(n: string)
    requires n != [] && ',' !in n && !IsSpace(n[0]) && !IsSpace(n[|n| - 1])
    ensures AfterColon(" : " + n) == Some(n)
  {
    var r := " : " + n;
    assert r[1..] == ": " + n;
    assert !IsSpace(':');
    assert TrimLeft(r, IsSpace) == ": " + n;
    assert (": " + n)[1..] == " " + n;
    assert forall i :: 0 <= i < |" " + n| ==> NotComma((" " + n)[i]) by {
      assert forall i :: 1 <= i < |" " + n| ==> (" " + n)[i] == n[i - 1];
    }
    TakeWhileAll(" " + n, NotComma);
    StripSpaceThen(n);
  }

  /** A line written as "Indicateur : <name>" gives back the name when the
      name is non-empty, has no comma and no surrounding whitespace. */
  lemma IndicatorLineRoundTrip(n: string)
    requires n != [] && ',' !in n && !IsSpace(n[0]) && !IsSpace(n[|n| - 1])
    ensures IndicatorLine("Indicateur : " + n).0 == n
  {
    var s := "Indicateur : " + n;
    LabelIndicateur(n);
    assert s[10..] == " : " + n;
    AfterSpacedColon(n);
    assert LowerChar(s[10]) !in IndicatorOpt;
    assert MatchAt(s, 0, IndicatorLabel, IndicatorOpt) == Some(n);
  }

  // ---------------------------------------------------------------------------
  // Indicator-name cleaning
  // ---------------------------------------------------------------------------

  /** `s.replace(p, "")`: occurrences removed left to right. */
  function RemoveAll(s: string, p: string): (r: string)
    requires p != []
    ensures |r| <= |s|
    decreases |s|
  {
    if |s| < |p| then s
    else if s[..|p|] == p then RemoveAll(s[|p|..], p)
    else [s[0]] + RemoveAll(s[1..], p)
  }

  lemma {:induction false} RemoveAllAbsent(s: string, p: string)
    requires p != [] && !Contains(s, p)
    ensures RemoveAll(s, p) == s
    decreases |s|
  {
    if |s| >= |p| {
      assert !StartsWith(s, p);
      RemoveAllAbsent(s[1..], p);
    }
  }

  /** No two consecutive `c`. */
  predicate NoDouble(s: string, c: char) {
    forall i :: 0 <= i < |s| - 1 ==> !(s[i] == c && s[i + 1] == c)
  }

  /** `re.sub(pattern + "+", rep, s)` for a one-character class `inRun`
      containing `rep`: every maximal run of the class becomes one `rep`. */
  function CollapseRuns(s: string, inRun: char -> bool, rep: char): (r: string)
    requires inRun(rep)
    ensures forall i :: 0 <= i < |r| ==> !inRun(r[i]) || r[i] == rep
    ensures NoDouble(r, rep)
    ensures s != [] && !inRun(s[0]) ==> r != [] && r[0] == s[0]
    ensures s != [] && inRun(s[0]) ==> r != [] && r[0] == rep
    ensures forall i :: 0 <= i < |r| && r[i] != rep ==> r[i] in s
    decreases |s|
  {
    if s == [] then []
    else if !inRun(s[0]) then [s[0]] + CollapseRuns(s[1..], inRun, rep)
    else
      TrimLeftSpec(s, inRun);
      [rep] + CollapseRuns(TrimLeft(s, inRun), inRun, rep)
  }

  /** A string whose only class members are isolated `rep`s is unchanged. */
  lemma {:induction false} CollapseRunsFixed(s: string, inRun: char -> bool, rep: char)
    requires inRun(rep)
    requires forall i :: 0 <= i < |s| ==> !inRun(s[i]) || s[i] == rep
    requires NoDouble(s, rep)
    ensures CollapseRuns(s, inRun, rep) == s
    decreases |s|
  {
    if s != [] {
      var u := s[1..];
      assert forall i :: 0 <= i < |u| ==> u[i] == s[i + 1];
      if inRun(s[0]) {
        assert TrimLeft(s, inRun) == u by {
          if u != [] {
            assert !inRun(u[0]);
          }
        }
      }
      CollapseRunsFixed(u, inRun, rep);
    }
  }

  const NameEdge: set<char> := {' ', '-', ':', ';'}

  /** `_clean_indicator_name(value)` on `str(value or "")`: stripped, every
      "(*)" removed, whitespace runs made single spaces, and spaces, dashes,
      colons and semicolons trimmed from both ends. */
  function CleanName(text: string): (r: string)
    ensures OnlyBlanks(r)
    ensures NoDouble(r, ' ')
    ensures r != [] ==> r[0] !in NameEdge && r[|r| - 1] !in NameEdge
  {
    var t := CollapseRuns(RemoveAll(Strip(text), "(*)"), IsSpace, ' ');
    var r := StripChars(t, NameEdge);
    StripCharsSlice(t, NameEdge);
    r
  }

  /** Whitespace, if any, is plain spaces. */
  predicate OnlyBlanks(s: string) {
    forall i :: 0 <= i < |s| ==> !IsSpace(s[i]) || s[i] == ' '
  }

  lemma SliceKeepsBlanks(t: string, a: nat, b: nat)
    requires a <= b <= |t| && OnlyBlanks(t) && NoDouble(t, ' ')
    ensures OnlyBlanks(t[a..b]) && NoDouble(t[a..b], ' ')
  {
    assert forall i :: 0 <= i < b - a ==> t[a..b][i] == t[a + i];
  }

  lemma StripCharsSlice(t: string, chars: set<char>)
    requires OnlyBlanks(t) && NoDouble(t, ' ')
    ensures OnlyBlanks(StripChars(t, chars)) && NoDouble(StripChars(t, chars), ' ')
    ensures StripChars(t, chars) != [] ==>
      StripChars(t, chars)[0] !in chars && StripChars(t, chars)[|StripChars(t, chars)| - 1] !in chars
  {
    var a := StripCharsIsSlice(t, chars);
    SliceKeepsBlanks(t, a, a + |StripChars(t, chars)|);
  }

  /** A name that is already clean (single inner spaces only, no "(*)",
      clean ends) is returned unchanged. */
  lemma CleanNameFixed(n: string)
    requires OnlyBlanks(n)
    requires NoDouble(n, ' ')
    requires !Contains(n, "(*)")
    requires n != [] ==> n[0] !in NameEdge && n[|n| - 1] !in NameEdge
    ensures CleanName(n) == n
  {
    assert n != [] ==> !IsSpace(n[0]) && !IsSpace(n[|n| - 1]);
    StripUnchanged(n);
    RemoveAllAbsent(n, "(*)");
    CollapseRunsFixed(n, IsSpace, ' ');
    StripCharsUnchanged(n, NameEdge);
  }

  lemma StripCharsUnchanged(t: string, chars: set<char>)
    requires t != [] ==> t[0] !in chars && t[|t| - 1] !in chars
    ensures StripChars(t, chars) == t
  {
    assert TrimLeft(t, c => c in chars) == t;
  }

  // ---------------------------------------------------------------------------
  // Header and meta-row filters
  // ---------------------------------------------------------------------------

  const HeaderPatterns: seq<string> :=
    ["PRINCIPAUX INDICATEURS", "DECOUPAGE ADMINISTRATIF", "ETABLISSEMENTS DE SANTE", "INDICATEURS"]

  /** `_looks_like_header(name)`: the normal form is shorter than three
      characters or contains one of the title patterns. */
  predicate LooksLikeHeader(name: string) {
    var n := Normalize(name);
    |n| < 3 || ContainsAny(n, HeaderPatterns)
  }

  /** The filter looks only at the normal form. */
  lemma LooksLikeHeaderNormal(name: string)
    ensures LooksLikeHeader(Normalize(name)) == LooksLikeHeader(name)
  {
    NormalizeIdempotent(name);
  }

  /** "PRINCIPAUX INDICATEURS" adds nothing: whatever contains it contains
      "INDICATEURS". */
  lemma HeaderFirstPatternSubsumed(t: string)
    ensures ContainsAny(t, HeaderPatterns) <==> ContainsAny(t, HeaderPatterns[1..])
  {
    if Contains(t, HeaderPatterns[0]) {
      assert HeaderPatterns[0] == "PRINCIPAUX " + "INDICATEURS" + "";
      ContainsInfix(t, "PRINCIPAUX ", "INDICATEURS", "");
      assert Contains(t, HeaderPatterns[1..][2]);
    }
    if ContainsAny(t, HeaderPatterns[1..]) {
      var k :| 0 <= k < |HeaderPatterns[1..]| && Contains(t, HeaderPatterns[1..][k]);
      assert HeaderPatterns[1..][k] == HeaderPatterns[k + 1];
    }
  }

  const MetaPrefixes: seq<string> := ["STATUT", "CYCLES", "NIVEAU", "MILIEU", "SEXE", "ACADEMIES", "IA"]

  /** `_is_education_meta_row(normalized)`. */
  predicate IsEducationMetaRow(normalized: string) {
    StartsWithAny(normalized, MetaPrefixes)
  }

  /** Being a meta row depends only on how the key begins. */
  lemma MetaRowExtends(v: string, w: string)
    requires IsEducationMetaRow(v)
    ensures IsEducationMetaRow(v + w)
  {
    var k :| 0 <= k < |MetaPrefixes| && StartsWith(v, MetaPrefixes[k]);
    assert (v + w)[..|MetaPrefixes[k]|] == v[..|MetaPrefixes[k]|];
  }

  // ---------------------------------------------------------------------------
  // Category and type guessing
  // ---------------------------------------------------------------------------

  /** The words of a normalised text (its single-space-separated parts). */
  predicate HasWord(t: string, w: string) {
    w in Split(t, ' ')
  }

  /** A rule fires when the text contains one of its tokens, or has one of
      its words as a whole word. */
  datatype Rule = Rule(tokens: seq<string>, words: seq<string>, category: Category)

  predicate Fires(t: string, rule: Rule) {
    ContainsAny(t, rule.tokens) || exists k :: 0 <= k < |rule.words| && HasWord(t, rule.words[k])
  }

  /** The category of the first rule that fires, else `fallback`. */
  function FirstMatch(t: string, rules: seq<Rule>, fallback: Category): (c: Category)
    ensures c == fallback || exists k :: 0 <= k < |rules| && c == rules[k].category
  {
    if rules == [] then fallback
    else if Fires(t, rules[0]) then rules[0].category
    else FirstMatch(t, rules[1..], fallback)
  }

  /** `FirstMatch` is the category of the earliest rule that fires, and the
      fallback exactly when none does. */
  lemma {:induction false} FirstMatchSpec(t: string, rules: seq<Rule>, fallback: Category, k: nat)
    requires k < |rules| && Fires(t, rules[k])
    requires forall j :: 0 <= j < k ==> !Fires(t, rules[j])
    ensures FirstMatch(t, rules, fallback) == rules[k].category
  {
    if k > 0 {
      assert !Fires(t, rules[0]);
      assert forall j :: 0 <= j < k - 1 ==> rules[1..][j] == rules[j + 1];
      FirstMatchSpec(t, rules[1..], fallback, k - 1);
    }
  }

  lemma {:induction false} FirstMatchNone(t: string, rules: seq<Rule>, fallback: Category)
    requires forall j :: 0 <= j < |rules| ==> !Fires(t, rules[j])
    ensures FirstMatch(t, rules, fallback) == fallback
  {
    if rules != [] {
      assert forall j :: 0 <= j < |rules| - 1 ==> rules[1..][j] == rules[j + 1];
      FirstMatchNone(t, rules[1..], fallback);
    }
  }

  /** The health rules as the importer writes them: "LIT" (bed) is a plain
      substring test. */
  const HealthRulesAsWritten: seq<Rule> := [
    Rule(["DEPENSE", "BUDGET", "FINANCE"], [], Finance),
    Rule(["PERSONNEL", "SOIGNANT", "MEDECIN", "SAGE FEMME"], [], Personnel),
    Rule(["LIT", "ETABLISSEMENT", "HOPITAL", "CENTRE", "POSTE", "INFRA"], [], Infrastructure),
    Rule(["MORTAL", "PREVALENCE", "DECES", "RESULTAT"], [], Outcomes),
    Rule(["ACCES", "COUVERTURE", "CONSULTATION", "VACCIN"], [], Access)
  ]

  /** The health rules with "LIT" and "LITS" matched as whole words. */
  const HealthRules: seq<Rule> := [
    Rule(["DEPENSE", "BUDGET", "FINANCE"], [], Finance),
    Rule(["PERSONNEL", "SOIGNANT", "MEDECIN", "SAGE FEMME"], [], Personnel),
    Rule(["ETABLISSEMENT", "HOPITAL", "CENTRE", "POSTE", "INFRA"], ["LIT", "LITS"], Infrastructure),
    Rule(["MORTAL", "PREVALENCE", "DECES", "RESULTAT"], [], Outcomes),
    Rule(["ACCES", "COUVERTURE", "CONSULTATION", "VACCIN"], [], Access)
  ]

  const EducationRules: seq<Rule> := [
    Rule(["RESULTAT", "REUSSITE", "ADMIS", "EXAMEN"], [], Outcomes),
    Rule(["ETABLISSEMENT", "CLASSE", "SALLE", "INFRA"], [], Infrastructure),
    Rule(["ENSEIGNANT", "PERSONNEL", "MAITRE"], [], Personnel),
    Rule(["SCOLAR", "INSCRIPTION", "ACCES"], [], Access),
    Rule(["RATIO", "QUALITE"], [], Quality)
  ]

  function CategoryText(group: string, sheet: string, name: string): string {
    Normalize(group + " " + sheet + " " + name)
  }

  /** `_guess_category` as written; the importers use this one. */
  function GuessCategoryAsWritten(sector: string, group: string, sheet: string, name: string): Category {
    var t := CategoryText(group, sheet, name);
    if sector == "health" then FirstMatch(t, HealthRulesAsWritten, Resources)
    else FirstMatch(t, EducationRules, Resources)
  }

  /** `_guess_category` with the bed rule on whole words, as evidently
      intended. */
  function GuessCategory(sector: string, group: string, sheet: string, name: string): Category {
    var t := CategoryText(group, sheet, name);
    if sector == "health" then FirstMatch(t, HealthRules, Resources)
    else FirstMatch(t, EducationRules, Resources)
  }

  lemma RuleCategories()
    ensures forall k :: 0 <= k < |HealthRules| ==> HealthRules[k].category != Quality
    ensures forall k :: 0 <= k < |HealthRulesAsWritten| ==> HealthRulesAsWritten[k].category != Quality
    ensures forall k :: 0 <= k < |EducationRules| ==> EducationRules[k].category != Finance
  {
    assert |HealthRules| == 5 && |HealthRulesAsWritten| == 5 && |EducationRules| == 5;
    assert HealthRules[0].category == Finance && HealthRules[1].category == Personnel;
    assert HealthRules[2].category == Infrastructure && HealthRules[3].category == Outcomes;
    assert HealthRules[4].category == Access;
    assert HealthRulesAsWritten[0].category == Finance && HealthRulesAsWritten[1].category == Personnel;
    assert HealthRulesAsWritten[2].category == Infrastructure && HealthRulesAsWritten[3].category == Outcomes;
    assert HealthRulesAsWritten[4].category == Access;
    assert EducationRules[0].category == Outcomes && EducationRules[1].category == Infrastructure;
    assert EducationRules[2].category == Personnel && EducationRules[3].category == Access;
    assert EducationRules[4].category == Quality;
  }

  /** The health branch never answers QUALITY, the other branch never
      FINANCE. */
  lemma GuessCategoryRange(sector: string, group: string, sheet: string, name: string)
    ensures sector == "health" ==> GuessCategory(sector, group, sheet, name) != Quality
    ensures sector == "health" ==> GuessCategoryAsWritten(sector, group, sheet, name) != Quality
    ensures sector != "health" ==> GuessCategory(sector, group, sheet, name) != Finance
  {
    RuleCategories();
  }

  /** As written, any health text mentioning MORTALITE contains "LIT", so
      the infrastructure rule fires before the outcomes rule can. */
  lemma MortalityNeverOutcome(t: string)
    requires Contains(t, "MORTALITE")
    ensures FirstMatch(t, HealthRulesAsWritten, Resources) != Outcomes
  {
    assert "MORTALITE" == "MORTA" + "LIT" + "E";
    ContainsInfix(t, "MORTA", "LIT", "E");
    var rules := HealthRulesAsWritten;
    assert rules[2].tokens[0] == "LIT";
    assert Contains(t, rules[2].tokens[0]);
    assert Fires(t, rules[2]);
    if Fires(t, rules[0]) {
      FirstMatchSpec(t, rules, Resources, 0);
    } else if Fires(t, rules[1]) {
      FirstMatchSpec(t, rules, Resources, 1);
    } else {
      FirstMatchSpec(t, rules, Resources, 2);
    }
  }

  lemma Absent(s: string, t: string, c: char)
    requires c in t && c !in s
    ensures !Contains(s, t)
  {
    if Contains(s, t) {
      ContainsChars(s, t);
    }
  }

  const MortaliteLetters: set<char> := {'M', 'O', 'R', 'T', 'A', 'L', 'I', 'E'}

  /** A one-word label spelt with the letters of MORTALITE and starting
      with it, such as the normal form "MORTALITE" of "Mortalité". */
  predicate MortalityWord(t: string) {
    && StartsWith(t, "MORTALITE")
    && forall i :: 0 <= i < |t| ==> t[i] in MortaliteLetters
  }

  lemma Missing(t: string, c: char)
    requires MortalityWord(t) && c !in MortaliteLetters
    ensures c !in t
  {
  }

  /** Such a label fires none of the finance or personnel rules. */
  lemma MortalityFirstRules(t: string)
    requires MortalityWord(t)
    ensures !Fires(t, HealthRules[0]) && !Fires(t, HealthRulesAsWritten[0])
    ensures !Fires(t, HealthRules[1]) && !Fires(t, HealthRulesAsWritten[1])
  {
    Missing(t, 'D'); Missing(t, 'B'); Missing(t, 'F'); Missing(t, 'P'); Missing(t, 'S');
    Absent(t, "DEPENSE", 'D'); Absent(t, "BUDGET", 'B'); Absent(t, "FINANCE", 'F');
    Absent(t, "PERSONNEL", 'P'); Absent(t, "SOIGNANT", 'S'); Absent(t, "MEDECIN", 'D');
    Absent(t, "SAGE FEMME", 'S');
    assert HealthRules[0].tokens == HealthRulesAsWritten[0].tokens == ["DEPENSE", "BUDGET", "FINANCE"];
    assert HealthRules[1].tokens == HealthRulesAsWritten[1].tokens == ["PERSONNEL", "SOIGNANT", "MEDECIN", "SAGE FEMME"];
    assert HealthRules[0].words == HealthRulesAsWritten[0].words == [];
    assert HealthRules[1].words == HealthRulesAsWritten[1].words == [];
  }

  /** As written, such a label is filed under INFRASTRUCTURE. */
  lemma MortalityLabelAsWritten(t: string)
    requires MortalityWord(t)
    ensures FirstMatch(t, HealthRulesAsWritten, Resources) == Infrastructure
  {
    MortalityFirstRules(t);
    assert t[5..5 + 3] == "LIT";
    ContainsAt(t, "LIT", 5);
    assert HealthRulesAsWritten[2].tokens[0] == "LIT";
    assert Fires(t, HealthRulesAsWritten[2]);
    FirstMatchSpec(t, HealthRulesAsWritten, Resources, 2);
  }

  /** With the bed rule on whole words, such a label is filed under
      OUTCOMES. */
  lemma MortalityLabel(t: string)
    requires MortalityWord(t)
    ensures FirstMatch(t, HealthRules, Resources) == Outcomes
  {
    MortalityFirstRules(t);
    BedRuleSilent(t);
    OutcomeRuleFires(t);
    FirstMatchSpec(t, HealthRules, Resources, 3);
  }

  /** The bed rule, on whole words, does not fire on such a label. */
  lemma BedRuleSilent(t: string)
    requires MortalityWord(t)
    ensures !Fires(t, HealthRules[2])
  {
    Missing(t, 'B'); Missing(t, 'H'); Missing(t, 'C'); Missing(t, 'P'); Missing(t, 'N'); Missing(t, ' ');
    Absent(t, "ETABLISSEMENT", 'B'); Absent(t, "HOPITAL", 'H'); Absent(t, "CENTRE", 'C');
    Absent(t, "POSTE", 'P'); Absent(t, "INFRA", 'N');
    assert Split(t, ' ') == [t];
    assert t != "LIT" && t != "LITS";
    assert HealthRules[2].tokens == ["ETABLISSEMENT", "HOPITAL", "CENTRE", "POSTE", "INFRA"];
    assert HealthRules[2].words == ["LIT", "LITS"];
  }

  /** The outcome rule fires on such a label. */
  lemma OutcomeRuleFires(t: string)
    requires MortalityWord(t)
    ensures Fires(t, HealthRules[3])
  {
    assert t[..6] == "MORTAL";
    assert HealthRules[3].tokens[0] == "MORTAL";
    assert StartsWith(t, HealthRules[3].tokens[0]);
  }

  const RatioUnits: set<string> := {"PER 1000", "1000", "POUR 1000"}

  /** The percentage hint of `_guess_type`: a '%' in the raw unit, or TAUX
      or POURCENT in the normalised text. */
  predicate PercentHint(unit: string, t: string) {
    '%' in unit || Contains(t, "TAUX") || Contains(t, "POURCENT")
  }

  predicate RatioHint(unit: string, t: string) {
    Contains(t, "RATIO") || Normalize(unit) in RatioUnits
  }

  /** `_guess_type(unit, name)`: percentage, ratio, currency and count
      tokens in that order of priority, number otherwise. */
  function GuessType(unit: string, name: string): (r: IndicatorType)
    ensures r == Percentage <==> PercentHint(unit, Normalize(unit + " " + name))
    ensures r == IndicatorType.Ratio <==>
      !PercentHint(unit, Normalize(unit + " " + name)) && RatioHint(unit, Normalize(unit + " " + name))
  {
    var t := Normalize(unit + " " + name);
    if PercentHint(unit, t) then Percentage
    else if RatioHint(unit, t) then IndicatorType.Ratio
    else if ContainsAny(t, ["BUDGET", "DEPENSE", "COUT", "FCFA"]) then Currency
    else if ContainsAny(t, ["NOMBRE", "EFFECTIF", "NB", "ETABLISSEMENT"]) then IndicatorType.Count
    else IndicatorType.Number
  }

  // ---------------------------------------------------------------------------
  // Indicator codes
  // ---------------------------------------------------------------------------

  predicate IsAsciiChar(c: char) { c < '\U{80}' }

  /** What `[^\w\s-]` leaves of a lower-cased ASCII text. */
  predicate SlugKeep(c: char) { IsLower(c) || IsDigit(c) || c == '_' || IsSpace(c) || c == '-' }

  predicate DashOrSpace(c: char) { c == '-' || IsSpace(c) }

  predicate SlugChar(c: char) { IsLower(c) || IsDigit(c) || c == '_' || c == '-' }

  const SlugEdge: set<char> := {'-', '_'}

  /** Django's `slugify(value)` without `allow_unicode`: decomposed and
      reduced to ASCII, lower-cased, characters other than word characters,
      whitespace and dashes dropped, runs of dashes and whitespace made one
      dash, dashes and underscores trimmed. */
  function Slugify(value: string): string {
    StripChars(CollapseRuns(Filter(Lower(Filter(Fold(value), IsAsciiChar)), SlugKeep), DashOrSpace, '-'), SlugEdge)
  }

  /** A slug holds only lower-case letters, digits, '_' and '-', has no two
      dashes in a row, and neither starts nor ends with '-' or '_'. */
  lemma SlugifyShape(value: string)
    ensures var r := Slugify(value);
      && (forall i :: 0 <= i < |r| ==> SlugChar(r[i]))
      && NoDouble(r, '-')
      && (r != [] ==> r[0] !in SlugEdge && r[|r| - 1] !in SlugEdge)
  {
    var kept := Filter(Lower(Filter(Fold(value), IsAsciiChar)), SlugKeep);
    var dashed := CollapseRuns(kept, DashOrSpace, '-');
    SlugShape(kept, dashed);
    var _ := StripCharsIsSlice(dashed, SlugEdge);
  }

  lemma SlugShape(kept: string, t: string)
    requires forall c :: c in kept ==> SlugKeep(c)
    requires forall i :: 0 <= i < |t| ==> !DashOrSpace(t[i]) || t[i] == '-'
    requires forall i :: 0 <= i < |t| && t[i] != '-' ==> t[i] in kept
    requires NoDouble(t, '-')
    ensures forall i :: 0 <= i < |StripChars(t, SlugEdge)| ==> SlugChar(StripChars(t, SlugEdge)[i])
    ensures NoDouble(StripChars(t, SlugEdge), '-')
  {
    var a := StripCharsIsSlice(t, SlugEdge);
    var r := StripChars(t, SlugEdge);
    assert forall i :: 0 <= i < |r| ==> r[i] == t[a + i];
  }

  predicate IsCodeChar(c: char) { IsUpper(c) || IsDigit(c) || c == '_' }

  /** The slug upper-cased, dashes made underscores, and anything outside
      `[A-Z0-9_]` dropped. */
  function CodeToken(raw: string): (token: string)
    ensures forall i :: 0 <= i < |token| ==> IsCodeChar(token[i])
  {
    var token := Filter(Upper(Replace(Slugify(raw), '-', '_')), IsCodeChar);
    assert forall i :: 0 <= i < |token| ==> token[i] in token;
    token
  }

  /** `f"{sector[:3].upper()}_IND"`. */
  function FallbackCode(sector: string): string {
    Upper(Take(sector, 3)) + "_IND"
  }

  /** `_build_indicator_code(sector, group, sheet, name)`. */
  function BuildIndicatorCode(sector: string, group: string, sheet: string, name: string): (code: string)
    ensures |code| <= 50
  {
    var token := CodeToken(sector + "_" + group + "_" + sheet + "_" + name);
    Take(if token == [] then FallbackCode(sector) else token, 50)
  }

  lemma FallbackShape(sector: string)
    requires |sector| >= 3 && forall i :: 0 <= i < 3 ==> IsLower(sector[i])
    ensures var f := FallbackCode(sector); f != [] && forall i :: 0 <= i < |f| ==> IsCodeChar(f[i])
  {
    var u := Upper(Take(sector, 3));
    assert forall i :: 0 <= i < 3 ==> IsCodeChar(u[i]);
  }

  /** For the two sectors the importers use, the code is a non-empty token
      of at most 50 characters from `A-Z`, `0-9` and '_'. */
  lemma BuildIndicatorCodeShape(sector: string, group: string, sheet: string, name: string)
    requires sector == "health" || sector == "education"
    ensures var code := BuildIndicatorCode(sector, group, sheet, name);
      0 < |code| <= 50 && forall i :: 0 <= i < |code| ==> IsCodeChar(code[i])
  {
    assert IsLower(sector[0]) && IsLower(sector[1]) && IsLower(sector[2]);
    FallbackShape(sector);
  }
}
