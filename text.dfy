/** Character classes and string helpers shared by the import pipeline.
    Python's `str` methods (`strip`, `split`, `in`, `replace`, `count`,
    `rfind`, `upper`, `lower`) are written out here on `seq<char>`. */
module Text {

  // ---------------------------------------------------------------------------
  // Character classes
  // ---------------------------------------------------------------------------

  predicate IsDigit(c: char) { '0' <= c <= '9' }
  predicate IsUpper(c: char) { 'A' <= c <= 'Z' }
  predicate IsLower(c: char) { 'a' <= c <= 'z' }

  /** The class `[A-Za-z0-9]` of the import regexes (ASCII only, as written). */
  predicate IsAlnum(c: char) { IsDigit(c) || IsUpper(c) || IsLower(c) }

  /** Python's whitespace (`str.isspace`, regex `\s` on str patterns). */
  predicate IsSpace(c: char) {
    c == ' ' || c == '\t' || c == '\n' || c == '\r' || c == '\U{0b}' || c == '\U{0c}'
    || ('\U{1c}' <= c <= '\U{1f}') || c == '\U{85}' || c == '\U{a0}' || c == '\U{1680}'
    || ('\U{2000}' <= c <= '\U{200a}') || c == '\U{2028}' || c == '\U{2029}'
    || c == '\U{202f}' || c == '\U{205f}' || c == '\U{3000}'
  }

  function DigitValue(c: char): (d: nat)
    requires IsDigit(c)
    ensures d < 10
  {
    (c as int - '0' as int) as nat
  }

  function DigitChar(d: nat): (c: char)
    requires d < 10
    ensures IsDigit(c) && DigitValue(c) == d
  {
    (d + '0' as int) as char
  }

  /** ASCII upper case; `str.upper()` on the strings where the model applies it. */
  function UpperChar(c: char): (u: char)
    ensures IsLower(c) ==> IsUpper(u)
    ensures !IsLower(c) ==> u == c
  {
    if IsLower(c) then (c as int - 32) as char else c
  }

  /** ASCII and Latin-1 lower case: the case folding used for `iexact`,
      `icontains` and `str.lower()` comparisons. */
  function LowerChar(c: char): char {
    if IsUpper(c) || ('\U{c0}' <= c <= '\U{de}' && c != '\U{d7}') then (c as int + 32) as char else c
  }

  function Upper(s: string): (r: string)
    ensures |r| == |s|
    ensures forall i :: 0 <= i < |s| ==> r[i] == UpperChar(s[i])
  {
    if s == [] then [] else [UpperChar(s[0])] + Upper(s[1..])
  }

  /** Python's `str.upper()` on one character of Latin-1: the lower-case
      letters map to their capitals, 'ß' to "SS", 'ÿ' to 'Ÿ' and 'µ' to
      'Μ'; other characters are unchanged. */
  function PyUpperChar(c: char): (r: string)
    ensures |r| == 1 || |r| == 2
    ensures forall i :: 0 <= i < |r| ==> !IsLower(r[i])
  {
    if IsLower(c) || ('\U{e0}' <= c <= '\U{fe}' && c != '\U{f7}') then [(c as int - 32) as char]
    else if c == '\U{df}' then "SS"
    else if c == '\U{ff}' then "\U{178}"
    else if c == '\U{b5}' then "\U{39c}"
    else [c]
  }

  /** Python's `str.upper()` on Latin-1 text. */
  function PyUpper(s: string): string {
    if s == [] then [] else PyUpperChar(s[0]) + PyUpper(s[1..])
  }

  /** Upper-casing leaves no ASCII lower-case letter and at most doubles the
      length. */
  lemma {:induction false} PyUpperShape(s: string)
    ensures |s| <= |PyUpper(s)| <= 2 * |s|
    ensures forall i :: 0 <= i < |PyUpper(s)| ==> !IsLower(PyUpper(s)[i])
  {
    if s != [] {
      PyUpperShape(s[1..]);
      var h := PyUpperChar(s[0]);
      var t := PyUpper(s[1..]);
      assert PyUpper(s) == h + t;
      forall i | 0 <= i < |h + t| ensures !IsLower((h + t)[i]) {
        if i < |h| { assert (h + t)[i] == h[i]; } else { assert (h + t)[i] == t[i - |h|]; }
      }
    }
  }

  function Lower(s: string): (r: string)
    ensures |r| == |s|
    ensures forall i :: 0 <= i < |s| ==> r[i] == LowerChar(s[i])
  {
    if s == [] then [] else [LowerChar(s[0])] + Lower(s[1..])
  }

  // ---------------------------------------------------------------------------
  // Substrings
  // ---------------------------------------------------------------------------

  predicate StartsWith(s: string, prefix: string) {
    |prefix| <= |s| && s[..|prefix|] == prefix
  }

  /** Python's `t in s`. */
  predicate Contains(s: string, t: string)
    decreases |s|
  {
    StartsWith(s, t) || (s != [] && Contains(s[1..], t))
  }

  lemma {:induction false} ContainsAt(s: string, t: string, i: nat)
    requires i + |t| <= |s| && s[i..i + |t|] == t
    ensures Contains(s, t)
    decreases i
  {
    if i > 0 {
      assert s[1..][i - 1..i - 1 + |t|] == t;
      ContainsAt(s[1..], t, i - 1);
    }
  }

  lemma {:induction false} ContainsWitness(s: string, t: string) returns (i: nat)
    requires Contains(s, t)
    ensures i + |t| <= |s| && s[i..i + |t|] == t
    decreases |s|
  {
    if StartsWith(s, t) {
      i := 0;
    } else {
      var j := ContainsWitness(s[1..], t);
      i := j + 1;
      assert s[i..i + |t|] == s[1..][j..j + |t|];
    }
  }

  /** Any of `tokens` occurs in `s` (`any(tok in s for tok in tokens)`). */
  predicate ContainsAny(s: string, tokens: seq<string>) {
    exists k :: 0 <= k < |tokens| && Contains(s, tokens[k])
  }

  /** An occurrence of `a + b + c` contains an occurrence of `b`. */
  lemma ContainsInfix(s: string, a: string, b: string, c: string)
    requires Contains(s, a + b + c)
    ensures Contains(s, b)
  {
    var i := ContainsWitness(s, a + b + c);
    var w := a + b + c;
    assert s[i..i + |w|] == w;
    assert w[|a|..|a| + |b|] == b;
    assert s[i + |a|..i + |a| + |b|] == s[i..i + |w|][|a|..|a| + |b|];
    ContainsAt(s, b, i + |a|);
  }

  /** Every character of an occurring string occurs. */
  lemma ContainsChars(s: string, t: string)
    requires Contains(s, t)
    ensures forall c :: c in t ==> c in s
  {
    var i := ContainsWitness(s, t);
    forall c | c in t ensures c in s {
      var k :| 0 <= k < |t| && t[k] == c;
      assert s[i + k] == s[i..i + |t|][k];
    }
  }

  predicate StartsWithAny(s: string, prefixes: seq<string>) {
    exists k :: 0 <= k < |prefixes| && StartsWith(s, prefixes[k])
  }

  // ---------------------------------------------------------------------------
  // Stripping, splitting, joining
  // ---------------------------------------------------------------------------

  function TrimLeft(s: string, drop: char -> bool): (r: string)
    ensures |r| <= |s|
    ensures s != [] && drop(s[0]) ==> |r| < |s|
  {
    if s != [] && drop(s[0]) then TrimLeft(s[1..], drop) else s
  }

  /** `TrimLeft` drops a prefix of characters `drop` accepts and stops at
      the first one it does not. */
  lemma {:induction false} TrimLeftSpec(s: string, drop: char -> bool)
    ensures var r := TrimLeft(s, drop);
      && r == s[|s| - |r|..]
      && (r != [] ==> !drop(r[0]))
      && (forall i :: 0 <= i < |s| - |r| ==> drop(s[i]))
  {
    if s != [] && drop(s[0]) {
      TrimLeftSpec(s[1..], drop);
    }
  }

  function TrimRight(s: string, drop: char -> bool): (r: string)
    ensures |r| <= |s|
  {
    if s != [] && drop(s[|s| - 1]) then TrimRight(s[..|s| - 1], drop) else s
  }

  /** `TrimRight` drops a suffix of characters `drop` accepts and stops at
      the last one it does not. */
  lemma {:induction false} TrimRightSpec(s: string, drop: char -> bool)
    ensures var r := TrimRight(s, drop);
      && r == s[..|r|]
      && (r != [] ==> !drop(r[|r| - 1]))
      && (forall i :: |r| <= i < |s| ==> drop(s[i]))
  {
    if s != [] && drop(s[|s| - 1]) {
      TrimRightSpec(s[..|s| - 1], drop);
    }
  }

  /** `str.strip()` with no argument. */
  function Strip(s: string): string {
    TrimRight(TrimLeft(s, IsSpace), IsSpace)
  }

  /** A string with no whitespace at either end is its own `strip()`. */
  lemma {:induction false} StripUnchanged(t: string)
    requires t != [] ==> !IsSpace(t[0]) && !IsSpace(t[|t| - 1])
    ensures Strip(t) == t
  {
    assert TrimLeft(t, IsSpace) == t;
  }

  /** `str.strip(chars)`. */
  function StripChars(s: string, chars: set<char>): string {
    TrimRight(TrimLeft(s, c => c in chars), c => c in chars)
  }

  lemma StripCharsIsSlice(t: string, chars: set<char>) returns (a: nat)
    ensures a + |StripChars(t, chars)| <= |t|
    ensures StripChars(t, chars) == t[a..a + |StripChars(t, chars)|]
    ensures StripChars(t, chars) != [] ==>
      StripChars(t, chars)[0] !in chars && StripChars(t, chars)[|StripChars(t, chars)| - 1] !in chars
  {
    var l := TrimLeft(t, c => c in chars);
    TrimLeftSpec(t, c => c in chars);
    TrimRightSpec(l, c => c in chars);
    a := |t| - |l|;
  }

  /** `str.split()` with no argument: the maximal runs of non-space characters. */
  function SplitWs(s: string): (words: seq<string>)
    ensures forall w :: w in words ==> w != [] && forall c :: c in w ==> !IsSpace(c)
    decreases |s|
  {
    var t := TrimLeft(s, IsSpace);
    TrimLeftSpec(s, IsSpace);
    if t == [] then []
    else
      [TakeWhile(t, c => !IsSpace(c))] + SplitWs(t[|TakeWhile(t, c => !IsSpace(c))|..])
  }

  function TakeWhile(s: string, keep: char -> bool): (r: string)
    ensures |r| <= |s| && r == s[..|r|]
    ensures forall c :: c in r ==> keep(c)
    ensures |r| < |s| ==> !keep(s[|r|])
  {
    if s != [] && keep(s[0]) then [s[0]] + TakeWhile(s[1..], keep) else []
  }

  lemma {:induction false} TakeWhileAll(s: string, keep: char -> bool)
    requires forall i :: 0 <= i < |s| ==> keep(s[i])
    ensures TakeWhile(s, keep) == s
    decreases |s|
  {
    if s != [] {
      TakeWhileAll(s[1..], keep);
    }
  }

  /** `sep.join(words)`. */
  function Join(words: seq<string>, sep: string): string {
    if words == [] then []
    else if |words| == 1 then words[0]
    else words[0] + sep + Join(words[1..], sep)
  }

  /** The characters of `s` that satisfy `keep`, in order. */
  function Filter(s: string, keep: char -> bool): (r: string)
    ensures |r| <= |s|
    ensures forall c :: c in r ==> keep(c) && c in s
  {
    if s == [] then [] else (if keep(s[0]) then [s[0]] else []) + Filter(s[1..], keep)
  }

  /** `s[:n]`. */
  function Take(s: string, n: nat): (r: string)
    ensures |r| == if |s| < n then |s| else n
    ensures r == s[..|r|]
  {
    if |s| <= n then s else s[..n]
  }

  // ---------------------------------------------------------------------------
  // Replacing and counting single characters
  // ---------------------------------------------------------------------------

  /** `s.replace(c, "")`. */
  function Remove(s: string, c: char): (r: string)
    ensures c !in r
    ensures forall x :: x in r ==> x in s
  {
    if s == [] then [] else (if s[0] == c then [] else [s[0]]) + Remove(s[1..], c)
  }

  /** `s.replace(a, b)` for single characters. */
  function Replace(s: string, a: char, b: char): (r: string)
    ensures |r| == |s|
    ensures forall i :: 0 <= i < |s| ==> r[i] == if s[i] == a then b else s[i]
  {
    if s == [] then [] else [if s[0] == a then b else s[0]] + Replace(s[1..], a, b)
  }

  /** `s.count(c)`. */
  function Count(s: string, c: char): (n: nat)
    ensures n <= |s|
    ensures n == 0 <==> c !in s
  {
    if s == [] then 0 else (if s[0] == c then 1 else 0) + Count(s[1..], c)
  }

  /** `s.rfind(c)`: the last index of `c`, or -1. */
  function RFind(s: string, c: char): (i: int)
    ensures -1 <= i < |s|
    ensures i == -1 <==> c !in s
    ensures i >= 0 ==> s[i] == c && forall j :: i < j < |s| ==> s[j] != c
  {
    if s == [] then -1
    else if s[|s| - 1] == c then |s| - 1
    else RFind(s[..|s| - 1], c)
  }

  /** The first index of `c` in `s` (`s.index(c)`). */
  function Find(s: string, c: char): (i: nat)
    requires c in s
    ensures i < |s| && s[i] == c && c !in s[..i]
  {
    if s[0] == c then 0 else Find(s[1..], c) + 1
  }

  /** `s.split(c)` for a single-character separator. */
  function Split(s: string, c: char): (parts: seq<string>)
    ensures |parts| == Count(s, c) + 1
    ensures forall k :: 0 <= k < |parts| ==> c !in parts[k]
    ensures Join(parts, [c]) == s
    decreases |s|
  {
    if c !in s then [s]
    else
      var i := Find(s, c);
      var rest := Split(s[i + 1..], c);
      SplitStep(s, c, i, rest);
      [s[..i]] + rest
  }

  lemma SplitStep(s: string, c: char, i: nat, rest: seq<string>)
    requires i < |s| && s[i] == c && c !in s[..i]
    requires |rest| == Count(s[i + 1..], c) + 1 && Join(rest, [c]) == s[i + 1..]
    ensures |[s[..i]] + rest| == Count(s, c) + 1
    ensures Join([s[..i]] + rest, [c]) == s
  {
    SplitCount(s, c, i);
    var parts := [s[..i]] + rest;
    assert parts[1..] == rest;
    assert Join(parts, [c]) == s[..i] + [c] + s[i + 1..];
    SplitAt(s, i);
  }

  lemma SplitCount(s: string, c: char, i: nat)
    requires i < |s| && s[i] == c && c !in s[..i]
    ensures Count(s, c) == Count(s[i + 1..], c) + 1
  {
    assert s == s[..i] + ([c] + s[i + 1..]);
    CountAppend(s[..i], [c] + s[i + 1..], c);
    CountAppend([c], s[i + 1..], c);
    CountAbsent(s[..i], c);
  }

  /** `"".join(parts)`. */
  function Concat(parts: seq<string>): string {
    if parts == [] then [] else parts[0] + Concat(parts[1..])
  }

  lemma {:induction false} JoinSnoc(words: seq<string>, w: string, sep: string)
    requires words != []
    ensures Join(words + [w], sep) == Join(words, sep) + sep + w
  {
    if |words| > 1 {
      assert (words + [w])[1..] == words[1..] + [w];
      JoinSnoc(words[1..], w, sep);
    }
  }

  lemma AroundSlices(pre: string, x: char, post: string)
    ensures (pre + [x] + post)[..|pre|] == pre
    ensures (pre + [x] + post)[|pre|] == x
    ensures (pre + [x] + post)[|pre| + 1..] == post
  {
  }

  lemma SplitAt(t: string, i: nat)
    requires i < |t|
    ensures t == t[..i] + [t[i]] + t[i + 1..]
  {
  }

  lemma CountAround(pre: string, x: char, post: string, c: char)
    ensures Count(pre + [x] + post, c) == Count(pre, c) + (if x == c then 1 else 0) + Count(post, c)
  {
    CountAppend(pre + [x], post, c);
    CountAppend(pre, [x], c);
  }

  lemma RemoveAround(pre: string, x: char, post: string, c: char)
    requires x != c
    ensures Remove(pre + [x] + post, c) == Remove(pre, c) + [x] + Remove(post, c)
  {
    RemoveAppend(pre + [x], post, c);
    RemoveAppend(pre, [x], c);
  }

  lemma RemoveDrop(pre: string, post: string, c: char)
    ensures Remove(pre + [c] + post, c) == Remove(pre, c) + Remove(post, c)
  {
    RemoveAppend(pre + [c], post, c);
    RemoveAppend(pre, [c], c);
  }

  lemma {:induction false} CountAppend(a: string, b: string, c: char)
    ensures Count(a + b, c) == Count(a, c) + Count(b, c)
  {
    if a == [] {
      assert a + b == b;
    } else {
      assert (a + b)[1..] == a[1..] + b;
      CountAppend(a[1..], b, c);
    }
  }

  lemma {:induction false} RemoveAppend(a: string, b: string, c: char)
    ensures Remove(a + b, c) == Remove(a, c) + Remove(b, c)
  {
    if a == [] {
      assert a + b == b;
    } else {
      assert (a + b)[1..] == a[1..] + b;
      RemoveAppend(a[1..], b, c);
    }
  }

  lemma {:induction false} RemoveAbsent(s: string, c: char)
    requires c !in s
    ensures Remove(s, c) == s
  {
    if s != [] {
      assert s[0] != c;
      RemoveAbsent(s[1..], c);
      assert s == [s[0]] + s[1..];
    }
  }

  lemma {:induction false} CountAbsent(s: string, c: char)
    requires c !in s
    ensures Count(s, c) == 0
  {
  }

  lemma {:induction false} ConcatSnoc(parts: seq<string>, p: string)
    ensures Concat(parts + [p]) == Concat(parts) + p
  {
    if parts != [] {
      assert (parts + [p])[1..] == parts[1..] + [p];
      ConcatSnoc(parts[1..], p);
    }
  }

  /** Removing every separator from a joined sequence concatenates its parts. */
  lemma {:induction false} RemoveJoin(parts: seq<string>, c: char)
    requires forall k :: 0 <= k < |parts| ==> c !in parts[k]
    ensures Remove(Join(parts, [c]), c) == Concat(parts)
  {
    if parts == [] {
    } else if |parts| == 1 {
      RemoveAbsent(parts[0], c);
      assert Concat(parts[1..]) == [];
    } else {
      var rest := Join(parts[1..], [c]);
      assert Join(parts, [c]) == parts[0] + ([c] + rest);
      RemoveAppend(parts[0], [c] + rest, c);
      RemoveAppend([c], rest, c);
      RemoveAbsent(parts[0], c);
      assert forall k :: 0 <= k < |parts[1..]| ==> parts[1..][k] == parts[k + 1];
      RemoveJoin(parts[1..], c);
      assert Remove([c] + rest, c) == Concat(parts[1..]);
    }
  }

  lemma {:induction false} CountConcat(parts: seq<string>, c: char)
    requires forall k :: 0 <= k < |parts| ==> c !in parts[k]
    ensures Count(Concat(parts), c) == 0
  {
    if parts != [] {
      CountConcat(parts[1..], c);
      CountAppend(parts[0], Concat(parts[1..]), c);
    }
  }

  lemma RFindAt(s: string, c: char, i: nat)
    requires i < |s| && s[i] == c && c !in s[i + 1..]
    ensures RFind(s, c) == i
  {
  }

  // ---------------------------------------------------------------------------
  // Natural numbers in decimal
  // ---------------------------------------------------------------------------

  predicate AllDigits(s: string) { forall c :: c in s ==> IsDigit(c) }

  /** `str(n)` for a natural number. */
  function NatToString(n: nat): (s: string)
    ensures s != [] && AllDigits(s)
  {
    if n < 10 then [DigitChar(n)] else NatToString(n / 10) + [DigitChar(n % 10)]
  }

  /** The value of a string of decimal digits (`int(s)` on such a string). */
  function DigitsValue(s: string): nat
    requires AllDigits(s)
  {
    if s == [] then 0 else DigitsValue(s[..|s| - 1]) * 10 + DigitValue(s[|s| - 1])
  }

  lemma {:induction false} NatToStringRoundTrip(n: nat)
    ensures DigitsValue(NatToString(n)) == n
  {
    if n >= 10 {
      var s := NatToString(n);
      assert s[..|s| - 1] == NatToString(n / 10);
      NatToStringRoundTrip(n / 10);
    }
  }

  lemma NatToStringInjective(m: nat, n: nat)
    requires NatToString(m) == NatToString(n)
    ensures m == n
  {
    NatToStringRoundTrip(m);
    NatToStringRoundTrip(n);
  }

  function Zeros(k: nat): (z: string)
    ensures |z| == k && AllDigits(z)
  {
    if k == 0 then [] else "0" + Zeros(k - 1)
  }

  /** `f"{n:04d}"`: at least four digits, left-padded with zeros. */
  function Pad4(n: nat): (s: string)
    ensures |s| >= 4 && AllDigits(s)
  {
    var d := NatToString(n);
    if |d| < 4 then Zeros(4 - |d|) + d else d
  }

  lemma {:induction false} LeadingZeros(k: nat, s: string)
    requires AllDigits(s)
    ensures AllDigits(Zeros(k) + s) && DigitsValue(Zeros(k) + s) == DigitsValue(s)
    decreases |s|
  {
    var z := Zeros(k) + s;
    if s == [] {
      assert z == Zeros(k);
      ZerosValue(k);
    } else {
      assert z[..|z| - 1] == Zeros(k) + s[..|s| - 1];
      LeadingZeros(k, s[..|s| - 1]);
    }
  }

  lemma {:induction false} ZerosValue(k: nat)
    ensures DigitsValue(Zeros(k)) == 0
  {
    if k > 0 {
      assert Zeros(k)[..k - 1] == Zeros(k - 1) by {
        ZerosSnoc(k - 1);
      }
      ZerosValue(k - 1);
    }
  }

  lemma {:induction false} ZerosSnoc(k: nat)
    ensures Zeros(k + 1) == Zeros(k) + "0"
  {
    if k > 0 {
      ZerosSnoc(k - 1);
    }
  }

  lemma Pad4RoundTrip(n: nat)
    ensures DigitsValue(Pad4(n)) == n
  {
    NatToStringRoundTrip(n);
    var d := NatToString(n);
    if |d| < 4 {
      LeadingZeros(4 - |d|, d);
    }
  }

  lemma Pad4Injective(m: nat, n: nat)
    requires Pad4(m) == Pad4(n)
    ensures m == n
  {
    Pad4RoundTrip(m);
    Pad4RoundTrip(n);
  }
}
