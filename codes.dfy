/** The free-code searches of the populate command: `_unique_geo_code` tries
    `base`, `base_1`, `base_2`, … and `_next_code` tries `PREFIX-0001`,
    `PREFIX-0002`, … until a code no row of the table uses. The table's codes
    are the set `taken`. */
module Codes {
  import opened Text

  /** The `j`-th candidate of `_unique_geo_code`. */
  function GeoCandidate(base: string, j: nat): string {
    if j == 0 then base else base + "_" + NatToString(j)
  }

  /** The `j`-th candidate of `_next_code` (`f"{prefix}-{j:04d}"`). */
  function FacilityCandidate(prefix: string, j: nat): string {
    prefix + "-" + Pad4(j)
  }

  lemma GeoCandidateInjective(base: string, j: nat, k: nat)
    requires GeoCandidate(base, j) == GeoCandidate(base, k)
    ensures j == k
  {
    if j != 0 && k != 0 {
      var p := base + "_";
      assert GeoCandidate(base, j)[|p|..] == NatToString(j);
      assert GeoCandidate(base, k)[|p|..] == NatToString(k);
      NatToStringInjective(j, k);
    }
  }

  lemma FacilityCandidateInjective(prefix: string, j: nat, k: nat)
    requires FacilityCandidate(prefix, j) == FacilityCandidate(prefix, k)
    ensures j == k
  {
    var p := prefix + "-";
    assert FacilityCandidate(prefix, j)[|p|..] == Pad4(j);
    assert FacilityCandidate(prefix, k)[|p|..] == Pad4(k);
    Pad4Injective(j, k);
  }

  /** `n` distinct strings all in `taken` fit in it. */
  lemma {:induction false} DistinctInside(f: nat -> string, n: nat, taken: set<string>)
    requires forall j, k :: 0 <= j < n && 0 <= k < n && f(j) == f(k) ==> j == k
    requires forall j :: 0 <= j < n ==> f(j) in taken
    ensures n <= |taken|
  {
    if n > 0 {
      var rest := taken - {f(n - 1)};
      assert forall j :: 0 <= j < n - 1 ==> f(j) in rest;
      DistinctInside(f, n - 1, rest);
    }
  }

  /** Only `|taken|` geo candidates can be taken in a row. */
  lemma GeoTriedBound(taken: set<string>, base: string, n: nat)
    requires forall j: nat :: j < n ==> GeoCandidate(base, j) in taken
    ensures n <= |taken|
  {
    forall j, k | 0 <= j < n && 0 <= k < n && GeoCandidate(base, j) == GeoCandidate(base, k)
      ensures j == k
    {
      GeoCandidateInjective(base, j, k);
    }
    DistinctInside((j: nat) => GeoCandidate(base, j), n, taken);
  }

  /** Only `|taken|` facility candidates can be taken in a row. */
  lemma FacilityTriedBound(taken: set<string>, prefix: string, n: nat)
    requires forall j: nat :: 1 <= j <= n ==> FacilityCandidate(prefix, j) in taken
    ensures n <= |taken|
  {
    var f := (j: nat) => FacilityCandidate(prefix, j + 1);
    forall j, k | 0 <= j < n && 0 <= k < n && f(j) == f(k)
      ensures j == k
    {
      FacilityCandidateInjective(prefix, j + 1, k + 1);
    }
    DistinctInside(f, n, taken);
  }

  /** `_unique_geo_code(model_cls, base)`: the first candidate not taken. */
  method UniqueGeoCode(taken: set<string>, base: string) returns (code: string)
    ensures code !in taken
    ensures exists k: nat :: code == GeoCandidate(base, k) && forall j: nat :: j < k ==> GeoCandidate(base, j) in taken
  {
    code := base;
    var idx := 1;
    while code in taken
      invariant idx >= 1
      invariant code == GeoCandidate(base, idx - 1)
      invariant forall j: nat :: j < idx - 1 ==> GeoCandidate(base, j) in taken
      decreases |taken| - (idx - 1)
    {
      GeoTriedBound(taken, base, idx);
      code := base + "_" + NatToString(idx);
      idx := idx + 1;
    }
  }

  /** `_next_code(model_cls, prefix)`: the first `PREFIX-NNNN` not taken,
      counting from 1. */
  method NextCode(taken: set<string>, prefix: string) returns (code: string)
    ensures code !in taken
    ensures exists k: nat ::
      && k >= 1
      && code == FacilityCandidate(prefix, k)
      && forall j: nat :: 1 <= j < k ==> FacilityCandidate(prefix, j) in taken
  {
    var idx := 1;
    code := prefix + "-" + Pad4(idx);
    while code in taken
      invariant idx >= 1
      invariant code == FacilityCandidate(prefix, idx)
      invariant forall j: nat :: 1 <= j < idx ==> FacilityCandidate(prefix, j) in taken
      decreases |taken| - (idx - 1)
    {
      FacilityTriedBound(taken, prefix, idx);
      idx := idx + 1;
      code := prefix + "-" + Pad4(idx);
    }
  }
}
