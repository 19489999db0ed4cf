/** The territorial hierarchy (regions, departments, communes) and the
    read-only geography views over it: a region's departments and
    communes, the nested hierarchy, and the commune search. Every table is
    given in the order of its queryset (by name). */
module Geography {
  import opened Wrappers
  import opened Text
  import Seqs

  datatype Region = Region(id: nat, code: string, name: string)
  datatype Department = Department(id: nat, code: string, name: string, region: nat)
  datatype Commune = Commune(id: nat, code: string, name: string, department: nat)

  datatype Atlas = Atlas(regions: seq<Region>, departments: seq<Department>, communes: seq<Commune>)

  /** A region's departments (`region.departments.all()`). */
  function DepartmentsOf(atlas: Atlas, region: nat): (r: seq<Department>)
    ensures forall i :: 0 <= i < |r| ==> r[i] in atlas.departments && r[i].region == region
    ensures forall i :: 0 <= i < |atlas.departments| && atlas.departments[i].region == region ==> atlas.departments[i] in r
  {
    Seqs.Where(atlas.departments, (d: Department) => d.region == region)
  }

  /** A department's communes (`department.communes.all()`). */
  function CommunesOf(atlas: Atlas, department: nat): (r: seq<Commune>)
    ensures forall i :: 0 <= i < |r| ==> r[i] in atlas.communes && r[i].department == department
    ensures forall i :: 0 <= i < |atlas.communes| && atlas.communes[i].department == department ==> atlas.communes[i] in r
  {
    Seqs.Where(atlas.communes, (c: Commune) => c.department == department)
  }

  /** The department with an id, if any. */
  function DepartmentById(atlas: Atlas, id: nat): (r: Option<Department>)
    ensures r.Some? ==> r.value in atlas.departments && r.value.id == id
    ensures r.None? ==> forall i :: 0 <= i < |atlas.departments| ==> atlas.departments[i].id != id
  {
    match Seqs.FirstIndex(atlas.departments, (d: Department) => d.id == id)
    case None => None
    case Some(i) => Some(atlas.departments[i])
  }

  /** The region a commune lies in, through its department
      (`commune.department.region`). */
  function RegionOfCommune(atlas: Atlas, c: Commune): (r: Option<nat>)
    ensures r.Some? <==> DepartmentById(atlas, c.department).Some?
    ensures r.Some? ==> r.value == DepartmentById(atlas, c.department).value.region
  {
    match DepartmentById(atlas, c.department)
    case None => None
    case Some(d) => Some(d.region)
  }

  /** `RegionViewSet.communes`: the communes whose department belongs to
      the region. */
  function RegionCommunes(atlas: Atlas, region: nat): (r: seq<Commune>)
    ensures forall i :: 0 <= i < |r| ==> r[i] in atlas.communes && RegionOfCommune(atlas, r[i]) == Some(region)
    ensures forall i :: 0 <= i < |atlas.communes| && RegionOfCommune(atlas, atlas.communes[i]) == Some(region) ==> atlas.communes[i] in r
  {
    Seqs.Where(atlas.communes, (c: Commune) => RegionOfCommune(atlas, c) == Some(region))
  }

  /** A region's communes are the communes of its departments. */
  lemma RegionCommunesThroughDepartments(atlas: Atlas, region: nat, c: Commune)
    requires c in atlas.communes
    ensures c in RegionCommunes(atlas, region) <==>
      exists d :: d in DepartmentsOf(atlas, region) && d.id == c.department
        && DepartmentById(atlas, c.department) == Some(d)
  {
    var i :| 0 <= i < |atlas.communes| && atlas.communes[i] == c;
    if c in RegionCommunes(atlas, region) {
      var d := DepartmentById(atlas, c.department).value;
      var j :| 0 <= j < |atlas.departments| && atlas.departments[j] == d;
      assert d in DepartmentsOf(atlas, region);
    }
  }

  // ---------------------------------------------------------------------------
  // The hierarchy view
  // ---------------------------------------------------------------------------

  datatype Leaf = Leaf(id: nat, code: string, name: string)
  datatype DepartmentNode = DepartmentNode(id: nat, code: string, name: string, communes: seq<Leaf>)
  datatype RegionNode = RegionNode(id: nat, code: string, name: string, departments: seq<DepartmentNode>)

  function CommuneLeaf(c: Commune): Leaf {
    Leaf(c.id, c.code, c.name)
  }

  /** A department's entry: its fields and its communes, in order. */
  function DepartmentEntry(atlas: Atlas, d: Department): (n: DepartmentNode)
    ensures n.id == d.id && n.code == d.code && n.name == d.name
    ensures |n.communes| == |CommunesOf(atlas, d.id)|
    ensures forall k :: 0 <= k < |n.communes| ==> n.communes[k] == CommuneLeaf(CommunesOf(atlas, d.id)[k])
  {
    var cs := CommunesOf(atlas, d.id);
    DepartmentNode(d.id, d.code, d.name, seq(|cs|, k requires 0 <= k < |cs| => CommuneLeaf(cs[k])))
  }

  /** A region's entry: its fields and its departments' entries, in order. */
  function RegionEntry(atlas: Atlas, r: Region): (n: RegionNode)
    ensures n.id == r.id && n.code == r.code && n.name == r.name
    ensures |n.departments| == |DepartmentsOf(atlas, r.id)|
    ensures forall k :: 0 <= k < |n.departments| ==> n.departments[k] == DepartmentEntry(atlas, DepartmentsOf(atlas, r.id)[k])
  {
    var ds := DepartmentsOf(atlas, r.id);
    RegionNode(r.id, r.code, r.name, seq(|ds|, k requires 0 <= k < |ds| => DepartmentEntry(atlas, ds[k])))
  }

  /** Each region is listed once, in order; each listed department belongs
      to its region and each listed commune to its department. */
  lemma HierarchyNesting(atlas: Atlas, nodes: seq<RegionNode>, i: nat, j: nat, k: nat)
    requires |nodes| == |atlas.regions| && forall m :: 0 <= m < |nodes| ==> nodes[m] == RegionEntry(atlas, atlas.regions[m])
    requires i < |nodes| && j < |nodes[i].departments| && k < |nodes[i].departments[j].communes|
    ensures nodes[i].id == atlas.regions[i].id
    ensures exists d :: d in atlas.departments && d.region == nodes[i].id && d.id == nodes[i].departments[j].id
    ensures exists c ::
      c in atlas.communes && c.department == nodes[i].departments[j].id && CommuneLeaf(c) == nodes[i].departments[j].communes[k]
  {
    var d := DepartmentsOf(atlas, atlas.regions[i].id)[j];
    assert nodes[i].departments[j] == DepartmentEntry(atlas, d);
    var c := CommunesOf(atlas, d.id)[k];
    assert c in atlas.communes && c.department == d.id;
  }

  /** `RegionViewSet.hierarchy`: the nested loops that build the response. */
  method Hierarchy(atlas: Atlas) returns (data: seq<RegionNode>)
    ensures |data| == |atlas.regions|
    ensures forall m :: 0 <= m < |data| ==> data[m] == RegionEntry(atlas, atlas.regions[m])
  {
    data := [];
    var i := 0;
    while i < |atlas.regions|
      invariant 0 <= i <= |atlas.regions| && |data| == i
      invariant forall m :: 0 <= m < i ==> data[m] == RegionEntry(atlas, atlas.regions[m])
    {
      var region := atlas.regions[i];
      var ds := DepartmentsOf(atlas, region.id);
      var departments: seq<DepartmentNode> := [];
      var j := 0;
      while j < |ds|
        invariant 0 <= j <= |ds| && |departments| == j
        invariant forall m :: 0 <= m < j ==> departments[m] == DepartmentEntry(atlas, ds[m])
      {
        var dept := ds[j];
        var cs := CommunesOf(atlas, dept.id);
        departments := departments + [DepartmentNode(dept.id, dept.code, dept.name,
          seq(|cs|, k requires 0 <= k < |cs| => CommuneLeaf(cs[k])))];
        j := j + 1;
      }
      data := data + [RegionNode(region.id, region.code, region.name, departments)];
      i := i + 1;
    }
  }

  // ---------------------------------------------------------------------------
  // The commune search
  // ---------------------------------------------------------------------------

  /** The most communes a search returns. */
  const SearchLimit := 20

  /** `name__icontains`: `q` occurs in the name, both lower-cased. */
  predicate ContainsIgnoringCase(name: string, q: string) {
    Contains(Lower(name), Lower(q))
  }

  /** `CommuneViewSet.search`: 400 for a query of fewer than 2 characters
      (a missing query is empty); otherwise the first 20 communes, in order,
      whose name contains the query ignoring case. */
  function Search(communes: seq<Commune>, q: string): (r: Result<seq<Commune>, int>)
    ensures r.Err? <==> |q| < 2
    ensures r.Err? ==> r.error == 400
    ensures r.Ok? ==> |r.value| <= SearchLimit
    ensures r.Ok? ==> forall i :: 0 <= i < |r.value| ==> r.value[i] in communes && ContainsIgnoringCase(r.value[i].name, q)
    ensures r.Ok? ==> var all := Seqs.Where(communes, (c: Commune) => ContainsIgnoringCase(c.name, q));
      r.value == all[..if |all| < SearchLimit then |all| else SearchLimit]
  {
    if |q| < 2 then Err(400)
    else
      var all := Seqs.Where(communes, (c: Commune) => ContainsIgnoringCase(c.name, q));
      Ok(all[..if |all| < SearchLimit then |all| else SearchLimit])
  }

  /** With fewer than 20 matches, the search finds every one of them. */
  lemma SearchComplete(communes: seq<Commune>, q: string, c: Commune)
    requires |q| >= 2 && c in communes && ContainsIgnoringCase(c.name, q)
    requires |Seqs.Where(communes, (x: Commune) => ContainsIgnoringCase(x.name, q))| <= SearchLimit
    ensures c in Search(communes, q).value
  {
    var i :| 0 <= i < |communes| && communes[i] == c;
    var all := Seqs.Where(communes, (x: Commune) => ContainsIgnoringCase(x.name, q));
    assert all[..|all|] == all;
  }
}
