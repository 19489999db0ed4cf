/** `_normalize` of the populate command: compatibility decomposition, accents
    dropped, every run of characters outside `[A-Za-z0-9]` collapsed to one
    space, stripped, upper-cased. */
module Normalization {
  import opened Wrappers
  import opened Text

  /** Compatibility decomposition (section 1.2 of Unicode Standard Annex #15)
      followed by removal of combining marks, for one character. The table
      covers the Latin-1 block; every other character is left as it is,
      except the combining diacritical marks U+0300..U+036F, which are dropped. */
  function FoldChar(c: char): (r: string)
    ensures c < '\U{80}' ==> r == [c]
  {
    if '\U{300}' <= c <= '\U{36f}' then []
    else if '\U{c0}' <= c <= '\U{c5}' then "A"
    else if c == '\U{c7}' then "C"
    else if '\U{c8}' <= c <= '\U{cb}' then "E"
    else if '\U{cc}' <= c <= '\U{cf}' then "I"
    else if c == '\U{d1}' then "N"
    else if '\U{d2}' <= c <= '\U{d6}' then "O"
    else if '\U{d9}' <= c <= '\U{dc}' then "U"
    else if c == '\U{dd}' then "Y"
    else if '\U{e0}' <= c <= '\U{e5}' then "a"
    else if c == '\U{e7}' then "c"
    else if '\U{e8}' <= c <= '\U{eb}' then "e"
    else if '\U{ec}' <= c <= '\U{ef}' then "i"
    else if c == '\U{f1}' then "n"
    else if '\U{f2}' <= c <= '\U{f6}' then "o"
    else if '\U{f9}' <= c <= '\U{fc}' then "u"
    else if c == '\U{fd}' || c == '\U{ff}' then "y"
    else if c == '\U{aa}' then "a"
    else if c == '\U{ba}' then "o"
    else if c == '\U{b9}' then "1"
    else if c == '\U{b2}' then "2"
    else if c == '\U{b3}' then "3"
    else if c == '\U{bc}' then "1\U{2044}4"
    else if c == '\U{bd}' then "1\U{2044}2"
    else if c == '\U{be}' then "3\U{2044}4"
    else if c == '\U{a0}' || c == '\U{a8}' || c == '\U{af}' || c == '\U{b4}' || c == '\U{b8}' then " "
    else if c == '\U{b5}' then "\U{3bc}"
    else [c]
  }

  function Fold(s: string): string {
    if s == [] then [] else FoldChar(s[0]) + Fold(s[1..])
  }

  predicate IsAscii(s: string) { forall c :: c in s ==> c < '\U{80}' }

  lemma {:induction false} FoldAscii(s: string)
    requires IsAscii(s)
    ensures Fold(s) == s
  {
    if s != [] {
      assert s[0] in s;
      assert forall c :: c in s[1..] ==> c in s;
      FoldAscii(s[1..]);
      assert s == [s[0]] + s[1..];
    }
  }

  predicate NotAlnum(c: char) { !IsAlnum(c) }

  predicate NoDoubleSpace(s: string) {
    forall i :: 0 <= i < |s| - 1 ==> !(s[i] == ' ' && s[i + 1] == ' ')
  }

  /** Only `[A-Za-z0-9]` and spaces. */
  predicate AlnumOrSpace(s: string) {
    forall i :: 0 <= i < |s| ==> IsAlnum(s[i]) || s[i] == ' '
  }

  /** `re.sub(r"[^A-Za-z0-9]+", " ", s)`. */
  function SubRuns(s: string): (r: string)
    ensures AlnumOrSpace(r)
    ensures NoDoubleSpace(r)
    ensures s != [] && IsAlnum(s[0]) ==> r != [] && r[0] == s[0]
    ensures s != [] && !IsAlnum(s[0]) ==> r != [] && r[0] == ' '
    decreases |s|
  {
    if s == [] then []
    else if IsAlnum(s[0]) then [s[0]] + SubRuns(s[1..])
    else
      TrimLeftSpec(s, NotAlnum);
      " " + SubRuns(TrimLeft(s, NotAlnum))
  }

  /** The form every result of `_normalize` has: only `A-Z`, `0-9` and single
      inner spaces. */
  predicate Canonical(t: string) {
    && (forall i :: 0 <= i < |t| ==> IsUpper(t[i]) || IsDigit(t[i]) || t[i] == ' ')
    && (t != [] ==> t[0] != ' ' && t[|t| - 1] != ' ')
    && NoDoubleSpace(t)
  }

  function Normalize(s: string): string {
    Upper(Strip(SubRuns(Fold(s))))
  }

  /** `_normalize(value)` including the `None` case. */
  function NormalizeOpt(v: Option<string>): (r: string)
    ensures v == None ==> r == ""
  {
    match v
    case None => ""
    case Some(s) => Normalize(s)
  }

  lemma StripIsSlice(s: string) returns (a: nat, b: nat)
    ensures a <= b <= |s| && Strip(s) == s[a..b]
    ensures Strip(s) != [] ==> !IsSpace(Strip(s)[0]) && !IsSpace(Strip(s)[|Strip(s)| - 1])
  {
    var t := TrimLeft(s, IsSpace);
    TrimLeftSpec(s, IsSpace);
    TrimRightSpec(t, IsSpace);
    a := |s| - |t|;
    b := a + |TrimRight(t, IsSpace)|;
    assert t == s[a..];
    assert Strip(s) == t[..b - a];
  }

  lemma StripKeepsShape(r: string)
    requires AlnumOrSpace(r) && NoDoubleSpace(r)
    ensures AlnumOrSpace(Strip(r)) && NoDoubleSpace(Strip(r))
    ensures Strip(r) != [] ==> Strip(r)[0] != ' ' && Strip(r)[|Strip(r)| - 1] != ' '
  {
    var a, b := StripIsSlice(r);
    var t := Strip(r);
    assert forall i :: 0 <= i < |t| ==> t[i] == r[a + i];
  }

  lemma UpperKeepsShape(t: string)
    requires AlnumOrSpace(t) && NoDoubleSpace(t)
    requires t != [] ==> t[0] != ' ' && t[|t| - 1] != ' '
    ensures Canonical(Upper(t))
  {
  }

  /** Every result of `_normalize` is canonical. */
  lemma NormalizeCanonical(s: string)
    ensures Canonical(Normalize(s))
  {
    StripKeepsShape(SubRuns(Fold(s)));
    UpperKeepsShape(Strip(SubRuns(Fold(s))));
  }

  lemma {:induction false} SubRunsCanonical(t: string)
    requires AlnumOrSpace(t) && NoDoubleSpace(t)
    requires t != [] ==> t[0] != ' '
    ensures SubRuns(t) == t
    decreases |t|
  {
    if t != [] && |t| > 1 {
      var u := t[1..];
      assert AlnumOrSpace(u) && NoDoubleSpace(u) by {
        assert forall i :: 0 <= i < |u| ==> u[i] == t[i + 1];
      }
      if t[1] == ' ' {
        SpaceThenCanonical(u);
      } else {
        SubRunsCanonical(u);
      }
    }
  }

  /** A space followed by a canonical tail is left alone by `SubRuns`. */
  lemma {:induction false} SpaceThenCanonical(u: string)
    requires u != [] && u[0] == ' '
    requires AlnumOrSpace(u) && NoDoubleSpace(u)
    ensures SubRuns(u) == u
    decreases |u|, 0
  {
    var rest := u[1..];
    assert TrimLeft(u, NotAlnum) == rest by {
      if rest != [] {
        assert u[1] != ' ';
        assert IsAlnum(rest[0]);
        assert TrimLeft(rest, NotAlnum) == rest;
      }
    }
    assert AlnumOrSpace(rest) && NoDoubleSpace(rest) by {
      assert forall i :: 0 <= i < |rest| ==> rest[i] == u[i + 1];
    }
    if rest != [] {
      SubRunsCanonical(rest);
    }
    assert u == " " + rest;
  }

  lemma UpperOfUpper(t: string)
    requires forall i :: 0 <= i < |t| ==> IsUpper(t[i]) || IsDigit(t[i]) || t[i] == ' '
    ensures Upper(t) == t
  {
  }

  lemma CanonicalIsAscii(t: string)
    requires Canonical(t)
    ensures IsAscii(t)
  {
    forall c | c in t ensures c < '\U{80}' {
      var i :| 0 <= i < |t| && t[i] == c;
    }
  }

  /** A canonical string is its own normal form. */
  lemma CanonicalIsFixed(t: string)
    requires Canonical(t)
    ensures Normalize(t) == t
  {
    CanonicalIsAscii(t);
    FoldAscii(t);
    assert AlnumOrSpace(t);
    SubRunsCanonical(t);
    StripUnchanged(t);
    UpperOfUpper(t);
  }

  /** `_normalize` is idempotent. */
  lemma NormalizeIdempotent(s: string)
    ensures Normalize(Normalize(s)) == Normalize(s)
  {
    NormalizeCanonical(s);
    CanonicalIsFixed(Normalize(s));
  }
}
