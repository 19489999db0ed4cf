/** Health and education facilities: the territory a facility derives from
    its commune, and the staffing record whose `save` recomputes the number
    of vacant posts. */
module Facilities {
  import opened Wrappers
  import opened Geography

  /** A facility of either kind; only the commune matters for its
      derived territory. */
  datatype Facility = Facility(id: nat, code: string, name: string, commune: Commune)

  /** The `department` property: the id of the commune's department. */
  function FacilityDepartment(f: Facility): nat {
    f.commune.department
  }

  /** The `region` property: the region of that department, when the
      department is in the atlas. */
  function FacilityRegion(atlas: Atlas, f: Facility): (r: Option<nat>)
    ensures r == RegionOfCommune(atlas, f.commune)
    ensures r.Some? ==> exists d :: d in atlas.departments && d.id == FacilityDepartment(f) && d.region == r.value
  {
    match DepartmentById(atlas, FacilityDepartment(f))
    case None => None
    case Some(d) => Some(d.region)
  }

  /** A facility's region is the region whose communes include its commune. */
  lemma FacilityInRegionCommunes(atlas: Atlas, f: Facility)
    requires f.commune in atlas.communes && FacilityRegion(atlas, f).Some?
    ensures f.commune in RegionCommunes(atlas, FacilityRegion(atlas, f).value)
  {
    var i :| 0 <= i < |atlas.communes| && atlas.communes[i] == f.commune;
  }

  /** The posts of one staff category at a facility. The three counts are
      `PositiveIntegerField`s: the database refuses a negative one. */
  class Staff {
    var total: int
    var filled: int
    var vacant: int
    var lastUpdated: int

    /** A record with the given counts; `vacant` starts at its default. */
    constructor(total: int, filled: int, today: int)
      ensures this.total == total && this.filled == filled && this.vacant == 0 && this.lastUpdated == today
    {
      this.total := total;
      this.filled := filled;
      this.vacant := 0;
      this.lastUpdated := today;
    }

    /** `save()`: `vacant` becomes `total - filled` on the instance, then the
      row is written, which the database refuses when a count is
      negative. The `auto_now` date is set on the instance before the
      write. `stored` says whether the row was written. */
    method Save(today: int) returns (stored: bool)
      modifies this
      ensures vacant == old(total) - old(filled) && vacant + filled == total
      ensures total == old(total) && filled == old(filled)
      ensures stored <==> old(filled) <= old(total) && old(total) >= 0 && old(filled) >= 0
      ensures lastUpdated == today
    {
      vacant := total - filled;
      lastUpdated := today;
      stored := total >= 0 && filled >= 0 && vacant >= 0;
    }
  }
}
