/** The two numeric cleaners of the import scripts: `_parse_number` of the
    populate command and the older `clean_value` of the standalone importer,
    both built on Python's `float()`. */
module Numbers {
  import opened Wrappers
  import opened Text
  import opened Json

  // ---------------------------------------------------------------------------
  // Python's float() on text
  // ---------------------------------------------------------------------------

  function Pow10(n: nat): (p: nat)
    ensures p >= 1
  {
    if n == 0 then 1 else 10 * Pow10(n - 1)
  }

  /** A mantissa `digits[.digits]` or `.digits`: its digits read as one
      integer, and how many of them follow the point. */
  function Mantissa(m: string): (r: Option<(nat, nat)>)
    ensures r.Some? ==> Count(m, '.') <= 1
  {
    if '.' !in m then
      if m != [] && AllDigits(m) then Some((DigitsValue(m), 0)) else None
    else
      var i := RFind(m, '.');
      var a, b := m[..i], m[i + 1..];
      if AllDigits(a) && AllDigits(b) && |a| + |b| > 0 then
        assert m == a + ([m[i]] + b);
        CountAppend(a, [m[i]] + b, '.');
        CountAppend([m[i]], b, '.');
        Some((DigitsValue(a + b), |b|))
      else None
  }

  /** An exponent `[+-]digits`. */
  function Exponent(x: string): Option<int> {
    var neg := x != [] && x[0] == '-';
    var d := if x != [] && (x[0] == '+' || x[0] == '-') then x[1..] else x;
    if d != [] && AllDigits(d) then Some(if neg then -(DigitsValue(d) as int) else DigitsValue(d)) else None
  }

  function Scale(e: int): (f: real)
    ensures f > 0.0
  {
    if e >= 0 then Pow10(e) as real else 1.0 / Pow10(-e) as real
  }

  predicate NotExpMark(c: char) { c != 'e' && c != 'E' }

  /** An unsigned decimal literal: mantissa, then an optional exponent. */
  function Unsigned(u: string): Option<real> {
    var m := TakeWhile(u, NotExpMark);
    var ex := if |m| < |u| then Exponent(u[|m| + 1..]) else Some(0);
    match (Mantissa(m), ex)
    case (Some((v, f)), Some(e)) => Some(v as real / Pow10(f) as real * Scale(e))
    case _ => None
  }

  /** Python's `float(s)` for decimal text: surrounding whitespace allowed,
      optional sign, mantissa, optional exponent; `None` where Python raises
      `ValueError`. */
  function PyFloat(s: string): Option<real> {
    var t := Strip(s);
    if t != [] && (t[0] == '+' || t[0] == '-') then
      match Unsigned(t[1..])
      case Some(x) => Some(if t[0] == '-' then -x else x)
      case None => None
    else Unsigned(t)
  }

  lemma UnsignedNoExponent(u: string)
    requires TakeWhile(u, NotExpMark) == u
    requires Mantissa(u).Some?
    ensures Unsigned(u) == Some(Mantissa(u).value.0 as real / Pow10(Mantissa(u).value.1) as real)
  {
    assert Scale(0) == 1.0;
  }

  /** Text made only of digits and points is read by `float()` as an
      unsigned literal with no exponent. */
  lemma {:induction false} PlainDecimal(s: string)
    requires s != [] && forall i :: 0 <= i < |s| ==> IsDigit(s[i]) || s[i] == '.'
    ensures PyFloat(s) == Unsigned(s)
    ensures TakeWhile(s, NotExpMark) == s
  {
    assert !IsSpace(s[0]) && !IsSpace(s[|s| - 1]);
    StripUnchanged(s);
    TakeNoExp(s);
  }

  lemma {:induction false} PyFloatNat(s: string)
    requires s != [] && AllDigits(s)
    ensures PyFloat(s) == Some(DigitsValue(s) as real)
  {
    assert forall i :: 0 <= i < |s| ==> s[i] in s;
    PlainDecimal(s);
    assert '.' !in s;
    assert Mantissa(s) == Some((DigitsValue(s), 0));
    UnsignedNoExponent(s);
    assert Pow10(0) as real == 1.0;
  }

  /** `float("a.b")` for digit strings. */
  lemma {:induction false} PyFloatDecimal(a: string, b: string)
    requires AllDigits(a) && AllDigits(b) && |a| + |b| > 0
    ensures PyFloat(a + "." + b) == Some(DigitsValue(a + b) as real / Pow10(|b|) as real)
  {
    DigitsAndDot(a, b);
    PlainDecimal(a + "." + b);
    MantissaDecimal(a, b);
    UnsignedNoExponent(a + "." + b);
  }

  lemma DigitsAndDot(a: string, b: string)
    requires AllDigits(a) && AllDigits(b)
    ensures forall i :: 0 <= i < |a + "." + b| ==> IsDigit((a + "." + b)[i]) || (a + "." + b)[i] == '.'
  {
    var s := a + "." + b;
    forall i | 0 <= i < |s| ensures IsDigit(s[i]) || s[i] == '.' {
      if i < |a| {
        assert s[i] == a[i] && a[i] in a;
      } else if i > |a| {
        assert s[i] == b[i - |a| - 1] && b[i - |a| - 1] in b;
      }
    }
  }

  lemma {:induction false} MantissaDecimal(a: string, b: string)
    requires AllDigits(a) && AllDigits(b) && |a| + |b| > 0
    ensures Mantissa(a + "." + b) == Some((DigitsValue(a + b), |b|))
  {
    var s := a + "." + b;
    assert '.' !in b;
    assert s[|a| + 1..] == b;
    RFindAt(s, '.', |a|);
    assert s[..|a|] == a;
  }

  lemma {:induction false} TakeNoExp(s: string)
    requires forall i :: 0 <= i < |s| ==> IsDigit(s[i]) || s[i] == '.'
    ensures TakeWhile(s, NotExpMark) == s
  {
    if s != [] {
      TakeNoExp(s[1..]);
      assert s == [s[0]] + s[1..];
    }
  }

  // ---------------------------------------------------------------------------
  // _parse_number
  // ---------------------------------------------------------------------------

  /** The text with both separators taken out: what each rewriting keeps. */
  function Unsep(s: string): string {
    Remove(Remove(s, ','), '.')
  }

  /** The cells `_parse_number` reads as "no value". */
  const Placeholders: set<string> := {"-", "--", "...", "NA", "N/A"}

  /** No-break spaces become spaces, then percent signs and spaces go. */
  function Squeeze(text: string): (r: string)
    ensures ' ' !in r && '%' !in r && '\U{a0}' !in r
  {
    var t := Remove(Remove(Replace(text, '\U{a0}', ' '), '%'), ' ');
    assert forall c :: c in t ==> c in Remove(Replace(text, '\U{a0}', ' '), '%');
    t
  }

  /** The separator rules: when both marks occur the later one is the decimal
      mark; a lone comma is a decimal comma; several commas group thousands. */
  function Separators(t: string): (r: string)
    ensures ',' !in r
    ensures ',' !in t ==> r == t
  {
    if ',' in t && '.' in t then
      if RFind(t, ',') > RFind(t, '.') then Replace(Remove(t, '.'), ',', '.')
      else Remove(t, ',')
    else if Count(t, ',') == 1 && '.' !in t then Replace(t, ',', '.')
    else if Count(t, ',') > 1 && '.' !in t then Remove(t, ',')
    else t
  }

  function ParseNumberText(raw: string): Option<real> {
    var text := Strip(raw);
    if text == [] || text in Placeholders then None
    else PyFloat(Separators(Squeeze(text)))
  }

  /** `_parse_number(value)`. A bool is an `int` to `isinstance`. */
  function ParseNumber(v: Value): (r: Option<real>)
    ensures v == JNull ==> r == None
    ensures v.JInt? ==> r == Some(v.i as real)
    ensures v.JFloat? ==> r == Some(v.r)
    ensures v.JStr? && (Strip(v.s) == [] || Strip(v.s) in Placeholders) ==> r == None
  {
    match v
    case JNull => None
    case JBool(b) => Some(if b then 1.0 else 0.0)
    case JInt(i) => Some(i as real)
    case JFloat(x, _) => Some(x)
    case _ => ParseNumberText(Str(v))
  }

  lemma {:induction false} ReplaceRemove(s: string, a: char, b: char)
    requires a != b
    ensures Remove(Replace(s, a, b), b) == Remove(Remove(s, a), b)
  {
    if s != [] {
      var x := if s[0] == a then b else s[0];
      assert Replace(s, a, b) == [x] + Replace(s[1..], a, b);
      RemoveAppend([x], Replace(s[1..], a, b), b);
      var y := if s[0] == a then [] else [s[0]];
      assert Remove(s, a) == y + Remove(s[1..], a);
      RemoveAppend(y, Remove(s[1..], a), b);
      ReplaceRemove(s[1..], a, b);
    }
  }

  lemma {:induction false} RemoveCommute(s: string, a: char, b: char)
    ensures Remove(Remove(s, a), b) == Remove(Remove(s, b), a)
  {
    if s != [] {
      var x := if s[0] == a then [] else [s[0]];
      var y := if s[0] == b then [] else [s[0]];
      RemoveAppend(x, Remove(s[1..], a), b);
      RemoveAppend(y, Remove(s[1..], b), a);
      RemoveCommute(s[1..], a, b);
    }
  }

  lemma RemoveTwice(s: string, a: char)
    ensures Remove(Remove(s, a), a) == Remove(s, a)
  {
    RemoveAbsent(Remove(s, a), a);
  }

  /** Whatever rule applies, only separators are rewritten: every other
      character is kept, in order. */
  lemma SeparatorsKeepDigits(t: string)
    ensures Unsep(Separators(t)) == Unsep(t)
  {
    var r := Separators(t);
    if ',' in t && '.' in t {
      if RFind(t, ',') > RFind(t, '.') {
        RemoveAbsent(Replace(Remove(t, '.'), ',', '.'), ',');
        ReplaceRemove(Remove(t, '.'), ',', '.');
        RemoveTwice(Remove(t, ','), '.');
        RemoveCommute(t, '.', ',');
        RemoveTwice(t, '.');
      } else {
        RemoveTwice(t, ',');
      }
    } else if Count(t, ',') == 1 && '.' !in t {
      RemoveAbsent(Replace(t, ',', '.'), ',');
      ReplaceRemove(t, ',', '.');
      RemoveTwice(Remove(t, ','), '.');
    } else if Count(t, ',') > 1 && '.' !in t {
      RemoveTwice(t, ',');
    }
  }

  /** When both marks occur and the later one occurs once, it becomes the
      decimal point and the other mark disappears: the result is the digits
      before it, a point, and the text after it. */
  lemma SeparatorsLastMark(t: string)
    requires ',' in t && '.' in t
    requires var k := Max(RFind(t, ','), RFind(t, '.')); Count(t, t[k]) == 1
    ensures var k := Max(RFind(t, ','), RFind(t, '.'));
      Separators(t) == Unsep(t[..k]) + "." + t[k + 1..]
  {
    var k := Max(RFind(t, ','), RFind(t, '.'));
    LastMarkParts(t, k);
    if t[k] == ',' {
      CommaLastRewrite(t[..k], t[k + 1..]);
    } else {
      DotLastRewrite(t[..k], t[k + 1..]);
    }
  }

  /** Around the last separator mark of `t`, when it occurs once. */
  lemma LastMarkParts(t: string, k: nat)
    requires ',' in t && '.' in t
    requires k == Max(RFind(t, ','), RFind(t, '.')) && Count(t, t[k]) == 1
    ensures t[k] !in t[..k] && ',' !in t[k + 1..] && '.' !in t[k + 1..]
    ensures t == t[..k] + [t[k]] + t[k + 1..]
  {
    var post := t[k + 1..];
    OnlyOccurrence(t, t[k], k);
    assert ',' !in post && '.' !in post by {
      forall j | 0 <= j < |post| ensures post[j] != ',' && post[j] != '.' {
        assert post[j] == t[k + 1 + j];
      }
    }
    SplitAt(t, k);
  }

  lemma CommaLastRewrite(pre: string, post: string)
    requires ',' !in pre && ',' !in post && '.' !in post
    ensures Replace(Remove(pre + [','] + post, '.'), ',', '.') == Unsep(pre) + "." + post
  {
    RemoveAround(pre, ',', post, '.');
    RemoveAbsent(post, '.');
    RemoveAbsent(pre, ',');
    ReplaceAround(Remove(pre, '.'), ',', post, '.');
  }

  lemma DotLastRewrite(pre: string, post: string)
    requires '.' !in pre && ',' !in post
    ensures Remove(pre + ['.'] + post, ',') == Unsep(pre) + "." + post
  {
    RemoveAround(pre, '.', post, ',');
    RemoveAbsent(post, ',');
    RemoveAbsent(Remove(pre, ','), '.');
  }

  function Max(a: int, b: int): int { if a > b then a else b }

  /** An only occurrence has none of its kind on either side. */
  lemma OnlyOccurrence(t: string, c: char, i: nat)
    requires i < |t| && t[i] == c && Count(t, c) == 1
    ensures c !in t[..i] && c !in t[i + 1..]
  {
    assert t == t[..i] + ([c] + t[i + 1..]);
    CountAppend(t[..i], [c] + t[i + 1..], c);
    CountAppend([c], t[i + 1..], c);
  }

  lemma ReplaceAround(pre: string, c: char, post: string, d: char)
    requires c !in pre && c !in post
    ensures Replace(pre + [c] + post, c, d) == pre + [d] + post
  {
    ReplaceAroundGeneral(pre, c, post, d);
    ReplaceAbsent(pre, c, d);
    ReplaceAbsent(post, c, d);
  }

  /** A single comma and no point: the comma is a decimal comma. */
  lemma SeparatorsDecimalComma(t: string)
    requires '.' !in t && Count(t, ',') == 1
    ensures ',' in t && Separators(t) == t[..Find(t, ',')] + "." + t[Find(t, ',') + 1..]
  {
    SplitAtOnly(t, ',');
    var i := Find(t, ',');
    DecimalCommaAt(t[..i], t[i + 1..]);
  }

  /** A text with a single `c` is what comes before it, `c`, and what comes
      after it. */
  lemma SplitAtOnly(t: string, c: char)
    requires Count(t, c) == 1
    ensures c in t
    ensures var i := Find(t, c);
      t == t[..i] + [c] + t[i + 1..] && c !in t[..i] && c !in t[i + 1..]
  {
    var i := Find(t, c);
    OnlyOccurrence(t, c, i);
    assert t == t[..i] + [c] + t[i + 1..];
  }

  lemma DecimalCommaAt(pre: string, post: string)
    requires ',' !in pre && ',' !in post && '.' !in pre + [','] + post
    ensures Separators(pre + [','] + post) == pre + "." + post
  {
    CountAround(pre, ',', post, ',');
    assert '.' !in pre && '.' !in post;
    ReplaceAround(pre, ',', post, '.');
  }

  /** Several commas and no point: every comma groups thousands and goes. */
  lemma SeparatorsThousands(t: string)
    requires '.' !in t && Count(t, ',') > 1
    ensures Separators(t) == Unsep(t)
  {
    RemoveAbsent(Remove(t, ','), '.');
  }

  // ---------------------------------------------------------------------------
  // clean_value of the standalone importer
  // ---------------------------------------------------------------------------

  /** The exceptions the importers let escape. */
  datatype PyError = AttributeError | ValueError | TypeError

  /** `"".join(parts[:-1]) + "." + parts[-1]` on `s.split(".")`: every point
      but the last is dropped. */
  function KeepLastDot(t: string): string
    requires '.' in t
  {
    var parts := Split(t, '.');
    Concat(parts[..|parts| - 1]) + "." + parts[|parts| - 1]
  }

  /** Spaces (plain and no-break) removed, commas turned into points, and
      points beyond the last one dropped. */
  function CleanText(s: string): string {
    var t := Replace(Remove(Remove(s, '\U{a0}'), ' '), ',', '.');
    if Count(t, '.') > 1 then KeepLastDot(t) else t
  }

  /** `clean_value(val)`. A list or a dict has no `replace` method, so
      `AttributeError` escapes; a `ValueError` from `float()` is caught. */
  function CleanValue(v: Value): (r: Result<Option<real>, PyError>)
    ensures v == JNull || v == JStr("") || v == JStr(" ") ==> r == Ok(None)
    ensures v.JInt? ==> r == Ok(Some(v.i as real))
    ensures v.JFloat? ==> r == Ok(Some(v.r))
    ensures r.Err? <==> v.JList? || v.JObject?
  {
    match v
    case JNull => Ok(None)
    case JBool(b) => Ok(Some(if b then 1.0 else 0.0))
    case JInt(i) => Ok(Some(i as real))
    case JFloat(x, _) => Ok(Some(x))
    case JStr(s) => if s == "" || s == " " then Ok(None) else Ok(PyFloat(CleanText(s)))
    case _ => Err(AttributeError)
  }

  /** `KeepLastDot` splits at the last point: the text before it loses its
      points, the text after it is kept. */
  lemma KeepLastDotParts(t: string) returns (pre: string, last: string)
    requires '.' in t
    ensures t == pre + "." + last && '.' !in last
    ensures KeepLastDot(t) == Remove(pre, '.') + "." + last
  {
    var parts := Split(t, '.');
    var n := |parts|;
    var init := parts[..n - 1];
    last := parts[n - 1];
    assert parts == init + [last];
    assert forall k :: 0 <= k < |init| ==> '.' !in init[k];
    JoinSnoc(init, last, ".");
    pre := Join(init, ".");
    RemoveJoin(init, '.');
  }

  /** Dropping all points but the last leaves exactly one, keeps every other
      character in order, and keeps the text after the last point. */
  lemma KeepLastDotSpec(t: string)
    requires '.' in t
    ensures KeepLastDot(t) == Remove(t[..RFind(t, '.')], '.') + "." + t[RFind(t, '.') + 1..]
    ensures Count(KeepLastDot(t), '.') == 1
    ensures Remove(KeepLastDot(t), '.') == Remove(t, '.')
  {
    KeepLastDotAt(t);
    var pre, last := KeepLastDotParts(t);
    OneDotLeft(pre, last);
    DotsDropped(pre, last);
  }

  /** `KeepLastDot` keeps the text after the last point. */
  lemma KeepLastDotAt(t: string)
    requires '.' in t
    ensures KeepLastDot(t) == Remove(t[..RFind(t, '.')], '.') + "." + t[RFind(t, '.') + 1..]
  {
    var pre, last := KeepLastDotParts(t);
    AroundSlices(pre, '.', last);
    RFindAt(t, '.', |pre|);
  }

  /** The same, for a point known to be the last one. */
  lemma KeepLastDotAtIndex(t: string, k: nat)
    requires k < |t| && t[k] == '.' && '.' !in t[k + 1..]
    ensures KeepLastDot(t) == Remove(t[..k], '.') + "." + t[k + 1..]
  {
    RFindAt(t, '.', k);
    KeepLastDotAt(t);
  }

  lemma OneDotLeft(pre: string, last: string)
    requires '.' !in last
    ensures Count(Remove(pre, '.') + "." + last, '.') == 1
  {
    var c := Remove(pre, '.');
    CountAppend(c + ".", last, '.');
    CountAppend(c, ".", '.');
    RemoveTwice(pre, '.');
  }

  lemma DotsDropped(pre: string, last: string)
    requires '.' !in last
    ensures Remove(Remove(pre, '.') + "." + last, '.') == Remove(pre + "." + last, '.')
  {
    var c := Remove(pre, '.');
    RemoveAppend(c + ".", last, '.');
    RemoveAppend(c, ".", '.');
    RemoveTwice(pre, '.');
    RemoveAppend(pre + ".", last, '.');
    RemoveAppend(pre, ".", '.');
  }

  /** The text `clean_value` hands to `float()` has no comma and at most one
      point, whatever the input. */
  lemma CleanTextShape(s: string)
    ensures ',' !in CleanText(s)
    ensures Count(CleanText(s), '.') <= 1
  {
    var t := Replace(Remove(Remove(s, '\U{a0}'), ' '), ',', '.');
    assert ',' !in t;
    if Count(t, '.') > 1 {
      KeepLastDotSpec(t);
      var k := RFind(t, '.');
      assert ',' !in t[..k] && ',' !in t[k + 1..];
    }
  }

  predicate DigitsOrCommas(s: string) {
    forall i :: 0 <= i < |s| ==> IsDigit(s[i]) || s[i] == ','
  }

  lemma GroupedShape(a: string, b: string, c: string)
    requires AllDigits(a) && AllDigits(b) && AllDigits(c)
    ensures DigitsOrCommas(a + "," + b + "," + c)
    ensures '.' !in a + "," + b + "," + c
  {
    var s := a + "," + b + "," + c;
    forall i | 0 <= i < |s| ensures IsDigit(s[i]) || s[i] == ',' {
      if i < |a| {
        assert s[i] == a[i] && a[i] in a;
      } else if |a| < i < |a| + 1 + |b| {
        assert s[i] == b[i - |a| - 1] && b[i - |a| - 1] in b;
      } else if i > |a| + 1 + |b| {
        assert s[i] == c[i - |a| - |b| - 2] && c[i - |a| - |b| - 2] in c;
      }
    }
  }

  lemma ReplaceAbsent(s: string, a: char, b: char)
    requires a !in s
    ensures Replace(s, a, b) == s
  {
  }

  /** Commas between digit groups become points. */
  lemma ReplaceGroups(a: string, b: string, c: string)
    requires ',' !in a && ',' !in b && ',' !in c
    ensures Replace(a + "," + b + "," + c, ',', '.') == a + "." + b + "." + c
  {
    ReplaceAroundGeneral(a + [','] + b, ',', c, '.');
    ReplaceAround(a, ',', b, '.');
    ReplaceAbsent(c, ',', '.');
  }

  lemma ReplaceAroundGeneral(pre: string, c: char, post: string, d: char)
    ensures Replace(pre + [c] + post, c, d) == Replace(pre, c, d) + [d] + Replace(post, c, d)
  {
    var s := pre + [c] + post;
    assert forall i :: 0 <= i < |pre| ==> s[i] == pre[i];
    assert forall i :: |pre| < i < |s| ==> s[i] == post[i - |pre| - 1];
  }

  /** The cleaned text of a grouped numeral `a,b,c` is `ab.c`. */
  lemma CleanTextGroups(a: string, b: string, c: string)
    requires AllDigits(a) && AllDigits(b) && AllDigits(c)
    ensures CleanText(a + "," + b + "," + c) == (a + b) + "." + c
  {
    var s := a + "," + b + "," + c;
    NoNoise(a, b, c);
    RemoveAbsent(s, '\U{a0}');
    RemoveAbsent(s, ' ');
    NoMarks(a);
    NoMarks(b);
    NoMarks(c);
    ReplaceGroups(a, b, c);
    var t := a + "." + b + "." + c;
    assert Replace(Remove(Remove(s, '\U{a0}'), ' '), ',', '.') == t;
    DotGroupsCount(a, b, c);
    KeepLastDotGroups(a, b, c);
  }

  lemma KeepLastDotGroups(a: string, b: string, c: string)
    requires '.' !in a && '.' !in b && '.' !in c
    ensures KeepLastDot(a + "." + b + "." + c) == (a + b) + "." + c
  {
    var ab := a + "." + b;
    AroundSlices(ab, '.', c);
    KeepLastDotAtIndex(ab + "." + c, |ab|);
    RemoveDrop(a, b, '.');
    RemoveAbsent(a, '.');
    RemoveAbsent(b, '.');
  }

  lemma NoMarks(a: string)
    requires AllDigits(a)
    ensures ',' !in a && '.' !in a
  {
  }

  /** A grouped numeral holds no space, no no-break space and no percent sign. */
  lemma NoNoise(a: string, b: string, c: string)
    requires AllDigits(a) && AllDigits(b) && AllDigits(c)
    ensures '\U{a0}' !in a + "," + b + "," + c
    ensures ' ' !in a + "," + b + "," + c
    ensures '%' !in a + "," + b + "," + c
  {
    var s := a + "," + b + "," + c;
    GroupedShape(a, b, c);
    forall i | 0 <= i < |s| ensures s[i] != '\U{a0}' && s[i] != ' ' && s[i] != '%' {
      assert IsDigit(s[i]) || s[i] == ',';
    }
  }

  lemma DotGroupsCount(a: string, b: string, c: string)
    requires '.' !in a && '.' !in b && '.' !in c
    ensures Count(a + "." + b + "." + c, '.') == 2
  {
    CountAround(a + "." + b, '.', c, '.');
    CountAround(a, '.', b, '.');
  }

  /** A grouped numeral is left alone by stripping and squeezing, and is no
      placeholder. */
  lemma GroupsUntouched(a: string, b: string, c: string)
    requires AllDigits(a) && AllDigits(b) && AllDigits(c) && a != [] && c != []
    ensures Strip(a + "," + b + "," + c) == a + "," + b + "," + c
    ensures a + "," + b + "," + c !in Placeholders
    ensures Squeeze(a + "," + b + "," + c) == a + "," + b + "," + c
  {
    var s := a + "," + b + "," + c;
    GroupsStripped(a, b, c);
    assert |s| >= 4;
    NoNoise(a, b, c);
    SqueezeQuiet(s);
  }

  lemma GroupsStripped(a: string, b: string, c: string)
    requires AllDigits(a) && AllDigits(b) && AllDigits(c) && a != [] && c != []
    ensures Strip(a + "," + b + "," + c) == a + "," + b + "," + c
  {
    var s := a + "," + b + "," + c;
    GroupedShape(a, b, c);
    assert !IsSpace(s[0]) && !IsSpace(s[|s| - 1]);
    StripUnchanged(s);
  }

  lemma SqueezeQuiet(s: string)
    requires '\U{a0}' !in s && ' ' !in s && '%' !in s
    ensures Squeeze(s) == s
  {
    ReplaceAbsent(s, '\U{a0}', ' ');
    RemoveAbsent(s, '%');
    RemoveAbsent(s, ' ');
  }

  /** `_parse_number` reads a grouped numeral `a,b,c` as the integer `abc`. */
  lemma ParseNumberGroups(a: string, b: string, c: string)
    requires AllDigits(a) && AllDigits(b) && AllDigits(c) && a != [] && c != []
    ensures ParseNumber(JStr(a + "," + b + "," + c)) == Some(DigitsValue(a + b + c) as real)
  {
    var s := a + "," + b + "," + c;
    GroupsUntouched(a, b, c);
    GroupsSeparated(a, b, c);
    assert ParseNumberText(s) == PyFloat(a + b + c);
    DigitsJoined(a, b, c);
    PyFloatNat(a + b + c);
  }

  /** The commas of a grouped numeral all go. */
  lemma GroupsSeparated(a: string, b: string, c: string)
    requires AllDigits(a) && AllDigits(b) && AllDigits(c)
    ensures Separators(a + "," + b + "," + c) == a + b + c
  {
    var s := a + "," + b + "," + c;
    GroupedShape(a, b, c);
    CommaGroups(a, b, c);
    NoMarks(a);
    NoMarks(b);
    NoMarks(c);
    RemoveAbsent(a + b + c, '.');
  }

  lemma DigitsJoined(a: string, b: string, c: string)
    requires AllDigits(a) && AllDigits(b) && AllDigits(c)
    ensures AllDigits(a + b + c)
  {
  }

  lemma CommaGroups(a: string, b: string, c: string)
    requires AllDigits(a) && AllDigits(b) && AllDigits(c)
    ensures Count(a + "," + b + "," + c, ',') == 2
    ensures Remove(a + "," + b + "," + c, ',') == a + b + c
  {
    NoMarks(a);
    NoMarks(b);
    NoMarks(c);
    var ab := a + [','] + b;
    CountAround(ab, ',', c, ',');
    CountAround(a, ',', b, ',');
    RemoveDrop(ab, c, ',');
    RemoveDrop(a, b, ',');
    RemoveAbsent(a, ',');
    RemoveAbsent(b, ',');
    RemoveAbsent(c, ',');
  }

  /** The two cleaners read the same grouped numeral `a,b,c` differently:
      `_parse_number` takes both commas as thousands separators, the older
      `clean_value` takes the last group as decimals (so "1,234,567" is
      1234567 to one and 1234.567 to the other). */
  lemma CleanersDisagree(a: string, b: string, c: string)
    requires AllDigits(a) && AllDigits(b) && AllDigits(c) && a != [] && c != []
    ensures ParseNumber(JStr(a + "," + b + "," + c)) == Some(DigitsValue(a + b + c) as real)
    ensures CleanValue(JStr(a + "," + b + "," + c))
      == Ok(Some(DigitsValue(a + b + c) as real / Pow10(|c|) as real))
  {
    ParseNumberGroups(a, b, c);
    CleanTextGroups(a, b, c);
    assert AllDigits(a + b);
    PyFloatDecimal(a + b, c);
    assert a + b + c == (a + b) + c;
  }
}
