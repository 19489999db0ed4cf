/** The territorial scoping shared by the indicator-value and submission
    views: a contributor or local manager only sees rows of their assigned
    commune, else of their assigned department, else of their assigned
    region; every other role sees every row. */
module Scoping {
  import opened Wrappers
  import opened Accounts
  import Seqs

  /** Where a row is attached: its region, department and commune fields. */
  datatype Place = Place(region: Option<nat>, department: Option<nat>, commune: Option<nat>)

  datatype Scope = Everything | InCommune(commune: nat) | InDepartment(department: nat) | InRegion(region: nat)

  /** The filter `get_queryset` applies for a user. */
  function ScopeOf(u: User): (s: Scope)
    ensures !IsContributor(u) && !IsLocalManager(u) ==> s == Everything
    ensures (IsContributor(u) || IsLocalManager(u)) ==>
      && (u.commune.Some? ==> s == InCommune(u.commune.value))
      && (u.commune.None? && u.department.Some? ==> s == InDepartment(u.department.value))
      && (u.commune.None? && u.department.None? && u.region.Some? ==> s == InRegion(u.region.value))
      && (u.commune.None? && u.department.None? && u.region.None? ==> s == Everything)
  {
    if IsContributor(u) || IsLocalManager(u) then
      if u.commune.Some? then InCommune(u.commune.value)
      else if u.department.Some? then InDepartment(u.department.value)
      else if u.region.Some? then InRegion(u.region.value)
      else Everything
    else Everything
  }

  predicate InScope(s: Scope, p: Place) {
    match s
    case Everything => true
    case InCommune(c) => p.commune == Some(c)
    case InDepartment(d) => p.department == Some(d)
    case InRegion(r) => p.region == Some(r)
  }

  /** The rows of `rows` the user sees, in order. */
  function Scoped<T(==)>(u: User, rows: seq<T>, place: T -> Place): (r: seq<T>)
    ensures forall i :: 0 <= i < |r| ==> r[i] in rows && InScope(ScopeOf(u), place(r[i]))
    ensures forall i :: 0 <= i < |rows| && InScope(ScopeOf(u), place(rows[i])) ==> rows[i] in r
    ensures ScopeOf(u) == Everything ==> r == rows
  {
    if ScopeOf(u) == Everything then rows
    else Seqs.Where(rows, (x: T) => InScope(ScopeOf(u), place(x)))
  }

  /** The commune assignment wins: a contributor assigned a commune sees
      exactly the rows of that commune, whatever department or region they
      are also assigned. */
  lemma CommuneWins<T>(u: User, rows: seq<T>, place: T -> Place, x: T)
    requires (IsContributor(u) || IsLocalManager(u)) && u.commune.Some? && x in rows
    ensures x in Scoped(u, rows, place) <==> place(x).commune == u.commune
  {
    var i :| 0 <= i < |rows| && rows[i] == x;
  }

  /** A department assignment is used only without a commune assignment,
      and a region assignment only without either. */
  lemma DepartmentBeforeRegion<T>(u: User, rows: seq<T>, place: T -> Place, x: T)
    requires (IsContributor(u) || IsLocalManager(u)) && u.commune.None? && u.department.Some? && x in rows
    ensures x in Scoped(u, rows, place) <==> place(x).department == u.department
  {
    var i :| 0 <= i < |rows| && rows[i] == x;
  }
}
