/** Dashboards, their widgets and generated reports: which dashboards a
    user sees, sharing and unsharing, the position order of widgets,
    duplication with every widget, the filters and outcome of the `data`
    action, the two-point trend of a KPI widget, and report generation. Row ids are positions in their table;
    JSON documents are kept as their text. */
module Dashboards {
  import opened Wrappers
  import opened Accounts

  /** A JSON document stored in a `JSONField`, kept as its text. */
  type Document = string

  datatype Board = Board(name: string, description: string, kind: string, layout: Document,
                         defaultFilters: map<string, string>, owner: nat, isShared: bool,
                         sharedWith: set<nat>, isDefault: bool, isActive: bool)

  datatype Widget = Widget(dashboard: nat, name: string, kind: string, x: nat, y: nat, width: nat, height: nat,
                           config: Document, dataSource: string, filters: Document, refreshInterval: Option<nat>,
                           isActive: bool)

  /** `DashboardViewSet.get_queryset`: a superuser sees every dashboard;
      anyone else those they own, those marked shared, and those shared
      with them. */
  predicate VisibleTo(u: User, b: Board) {
    u.isSuperuser || b.owner == u.id || b.isShared || u.id in b.sharedWith
  }

  /** A dashboard as `share` leaves it: the ids are added to the members
      and the dashboard is marked shared. */
  function Shared(b: Board, ids: set<nat>): (r: Board)
    ensures r.sharedWith == b.sharedWith + ids && r.isShared
    ensures r.name == b.name && r.description == b.description && r.kind == b.kind && r.layout == b.layout
    ensures r.defaultFilters == b.defaultFilters && r.owner == b.owner && r.isDefault == b.isDefault && r.isActive == b.isActive
  {
    b.(sharedWith := b.sharedWith + ids, isShared := true)
  }

  /** A dashboard as `unshare` leaves it: no member, not marked shared. */
  function Unshared(b: Board): (r: Board)
    ensures r.sharedWith == {} && !r.isShared
    ensures r.name == b.name && r.description == b.description && r.kind == b.kind && r.layout == b.layout
    ensures r.defaultFilters == b.defaultFilters && r.owner == b.owner && r.isDefault == b.isDefault && r.isActive == b.isActive
  {
    b.(sharedWith := {}, isShared := false)
  }

  /** Sharing keeps the existing members, and since it marks the dashboard
      shared, every user sees it afterwards, not only the listed ones. */
  lemma ShareOpensToEveryone(b: Board, ids: set<nat>, u: User)
    ensures b.sharedWith <= Shared(b, ids).sharedWith
    ensures VisibleTo(u, Shared(b, ids))
  {
  }

  /** After `unshare`, only superusers and the owner see the dashboard. */
  lemma UnshareRestrictsToOwner(b: Board, u: User)
    ensures VisibleTo(u, Unshared(b)) <==> u.isSuperuser || b.owner == u.id
  {
  }

  /** Sharing twice with the same ids is sharing once. */
  lemma ShareIdempotent(b: Board, ids: set<nat>)
    ensures Shared(Shared(b, ids), ids) == Shared(b, ids)
  {
  }

  /** The dashboard `duplicate` creates: the name with " (Copie)", the
      same description, type, layout and default filters, owned by the
      requester; the other fields take their defaults. */
  function CopyOf(b: Board, requester: nat): (r: Board)
    ensures r.name == b.name + " (Copie)" && r.owner == requester
    ensures r.description == b.description && r.kind == b.kind && r.layout == b.layout && r.defaultFilters == b.defaultFilters
    ensures !r.isShared && r.sharedWith == {} && !r.isDefault && r.isActive
  {
    Board(b.name + " (Copie)", b.description, b.kind, b.layout, b.defaultFilters, requester, false, {}, false, true)
  }

  /** A widget copied to dashboard `target`: every field but `is_active`,
      which takes its default, so an inactive widget is copied active. */
  function CopyWidget(w: Widget, target: nat): (r: Widget)
    ensures r.dashboard == target && r.isActive
    ensures r.name == w.name && r.kind == w.kind && r.x == w.x && r.y == w.y && r.width == w.width && r.height == w.height
    ensures r.config == w.config && r.dataSource == w.dataSource && r.filters == w.filters && r.refreshInterval == w.refreshInterval
  {
    w.(dashboard := target, isActive := true)
  }

  /** `Widget.Meta.ordering`: by row (`position_y`), then by column
      (`position_x`). */
  predicate PlacedBefore(a: Widget, b: Widget) {
    a.y < b.y || (a.y == b.y && a.x <= b.x)
  }

  predicate InPlaceOrder(ws: seq<Widget>) {
    forall i, j :: 0 <= i < j < |ws| ==> PlacedBefore(ws[i], ws[j])
  }

  /** `w` put into a sequence after the widgets placed before it; widgets
      at the same place keep the order they came in. */
  function Place(ws: seq<Widget>, w: Widget): (r: seq<Widget>)
    ensures multiset(r) == multiset(ws) + multiset{w}
    ensures InPlaceOrder(ws) ==> InPlaceOrder(r)
  {
    if ws == [] || PlacedBefore(ws[|ws| - 1], w) then
      OrderedSnoc(ws, w);
      ws + [w]
    else
      var init, last := ws[..|ws| - 1], ws[|ws| - 1];
      assert ws == init + [last];
      var placed := Place(init, w);
      if InPlaceOrder(ws) then
        PlacedBeforeLast(init, w, placed, last);
        OrderedSnoc(placed, last);
        placed + [last]
      else
        placed + [last]
  }

  /** One more widget keeps the order when every widget before it is
      placed before it. */
  lemma OrderedSnoc(ws: seq<Widget>, w: Widget)
    requires ws != [] ==> PlacedBefore(ws[|ws| - 1], w)
    ensures InPlaceOrder(ws) ==> InPlaceOrder(ws + [w])
  {
    if InPlaceOrder(ws) {
      var r := ws + [w];
      forall i, j | 0 <= i < j < |r| ensures PlacedBefore(r[i], r[j]) {
        if j < |ws| {
          assert r[i] == ws[i] && r[j] == ws[j];
        } else if i < |ws| - 1 {
          assert PlacedBefore(ws[i], ws[|ws| - 1]);
        }
      }
    }
  }

  /** The widgets of `init` with `w` among them, all placed before `last`
      when `init` is ordered ahead of `last` and `w` strictly precedes it. */
  lemma PlacedBeforeLast(init: seq<Widget>, w: Widget, placed: seq<Widget>, last: Widget)
    requires InPlaceOrder(init + [last]) && !PlacedBefore(last, w)
    requires multiset(placed) == multiset(init) + multiset{w}
    requires InPlaceOrder(init) ==> InPlaceOrder(placed)
    ensures InPlaceOrder(placed) && (placed != [] ==> PlacedBefore(placed[|placed| - 1], last))
  {
    assert InPlaceOrder(init) by {
      forall i, j | 0 <= i < j < |init| ensures PlacedBefore(init[i], init[j]) {
        assert init[i] == (init + [last])[i] && init[j] == (init + [last])[j];
      }
    }
    if placed != [] {
      var x := placed[|placed| - 1];
      assert x in multiset(placed);
      if x != w {
        assert x in multiset(init);
        var m :| 0 <= m < |init| && init[m] == x;
        assert (init + [last])[m] == x && (init + [last])[|init|] == last;
      }
    }
  }

  /** The widgets in place order, ties in the order given. */
  function SortByPlace(ws: seq<Widget>): (r: seq<Widget>)
    ensures multiset(r) == multiset(ws) && InPlaceOrder(r)
  {
    if ws == [] then []
    else
      assert ws == ws[..|ws| - 1] + [ws[|ws| - 1]];
      Place(SortByPlace(ws[..|ws| - 1]), ws[|ws| - 1])
  }

  /** Widgets already in place order are left as they are. */
  lemma {:induction false} SortByPlaceKeepsOrdered(ws: seq<Widget>)
    requires InPlaceOrder(ws)
    ensures SortByPlace(ws) == ws
  {
    if ws != [] {
      var init, last := ws[..|ws| - 1], ws[|ws| - 1];
      OrderedInit(ws);
      SortByPlaceKeepsOrdered(init);
      assert SortByPlace(ws) == Place(init, last);
      assert ws == init + [last];
    }
  }

  lemma OrderedInit(ws: seq<Widget>)
    requires ws != [] && InPlaceOrder(ws)
    ensures InPlaceOrder(ws[..|ws| - 1])
    ensures |ws| > 1 ==> PlacedBefore(ws[|ws| - 2], ws[|ws| - 1])
  {
    var init := ws[..|ws| - 1];
    forall i, j | 0 <= i < j < |init| ensures PlacedBefore(init[i], init[j]) {
      assert init[i] == ws[i] && init[j] == ws[j];
    }
  }

  /** The widgets of dashboard `id`, in table order. */
  function TableWidgetsOf(widgets: seq<Widget>, id: nat): (r: seq<Widget>)
    ensures |r| <= |widgets|
    ensures forall k :: 0 <= k < |r| ==> r[k] in widgets && r[k].dashboard == id
    ensures forall j :: 0 <= j < |widgets| && widgets[j].dashboard == id ==> widgets[j] in r
  {
    if widgets == [] then []
    else
      var init := widgets[..|widgets| - 1];
      assert forall j :: 0 <= j < |init| ==> init[j] == widgets[j];
      var w := widgets[|widgets| - 1];
      TableWidgetsOf(init, id) + (if w.dashboard == id then [w] else [])
  }

  /** `dashboard.widgets.all()`: the widgets of dashboard `id`, in place
      order. */
  function WidgetsOf(widgets: seq<Widget>, id: nat): (r: seq<Widget>)
    ensures InPlaceOrder(r) && multiset(r) == multiset(TableWidgetsOf(widgets, id))
    ensures forall k :: 0 <= k < |r| ==> r[k] in widgets && r[k].dashboard == id
    ensures forall j :: 0 <= j < |widgets| && widgets[j].dashboard == id ==> widgets[j] in r
  {
    var table := TableWidgetsOf(widgets, id);
    var r := SortByPlace(table);
    assert forall k :: 0 <= k < |r| ==> r[k] in multiset(table);
    assert forall j :: 0 <= j < |widgets| && widgets[j].dashboard == id ==> widgets[j] in multiset(r);
    r
  }

  /** The copies of a dashboard's widgets, in place order. */
  function CopiedWidgets(widgets: seq<Widget>, id: nat, target: nat): (r: seq<Widget>)
    ensures |r| == |WidgetsOf(widgets, id)|
    ensures forall k :: 0 <= k < |r| ==> r[k] == CopyWidget(WidgetsOf(widgets, id)[k], target)
  {
    var ws := WidgetsOf(widgets, id);
    seq(|ws|, k requires 0 <= k < |ws| => CopyWidget(ws[k], target))
  }

  /** The copies are made one widget at a time, in place order. */
  lemma CopiesPrefix(widgets: seq<Widget>, id: nat, target: nat, j: nat)
    requires j <= |WidgetsOf(widgets, id)|
    ensures var c := CopiedWidgets(widgets, id, target);
      && (j < |c| ==> c[..j + 1] == c[..j] + [CopyWidget(WidgetsOf(widgets, id)[j], target)])
      && (j == |c| ==> c[..j] == c)
  {
  }

  /** A copy keeps the layout of every widget: position, size, content
      and refresh interval. */
  lemma CopyKeepsLayout(widgets: seq<Widget>, id: nat, target: nat, k: nat)
    requires k < |CopiedWidgets(widgets, id, target)|
    ensures var c := CopiedWidgets(widgets, id, target)[k];
      var w := WidgetsOf(widgets, id)[k];
      && c.x == w.x && c.y == w.y && c.width == w.width && c.height == w.height
      && c.config == w.config && c.filters == w.filters && c.refreshInterval == w.refreshInterval
      && c.name == w.name && c.kind == w.kind && c.dataSource == w.dataSource
  {
  }

  /** Every widget of the dashboard is copied, once per widget, and the
      copies come out in place order, as the copy's own widget list then
      reads them. */
  lemma CopiesCoverDashboard(widgets: seq<Widget>, id: nat, target: nat)
    ensures var c := CopiedWidgets(widgets, id, target);
      && |c| == |TableWidgetsOf(widgets, id)|
      && InPlaceOrder(c)
      && forall j :: 0 <= j < |widgets| && widgets[j].dashboard == id ==> CopyWidget(widgets[j], target) in c
  {
    var ws := WidgetsOf(widgets, id);
    var c := CopiedWidgets(widgets, id, target);
    assert |multiset(ws)| == |multiset(TableWidgetsOf(widgets, id))|;
    forall i, j | 0 <= i < j < |c| ensures PlacedBefore(c[i], c[j]) {
      assert c[i] == CopyWidget(ws[i], target) && c[j] == CopyWidget(ws[j], target);
    }
    forall j | 0 <= j < |widgets| && widgets[j].dashboard == id ensures CopyWidget(widgets[j], target) in c {
      var k :| 0 <= k < |ws| && ws[k] == widgets[j];
      assert c[k] == CopyWidget(widgets[j], target);
    }
  }

  /** The effective filters of `data`: the default filters, overridden key
      by key by the query parameters. */
  function EffectiveFilters(defaults: map<string, string>, query: map<string, string>): (r: map<string, string>)
    ensures forall k :: k in r <==> k in defaults || k in query
    ensures forall k :: k in query ==> r[k] == query[k]
    ensures forall k :: k in defaults && k !in query ==> r[k] == defaults[k]
  {
    defaults + query
  }

  /** The positions of the active widgets of dashboard `id`, in table order. */
  function ActiveWidgets(widgets: seq<Widget>, id: nat): (r: seq<nat>)
    ensures forall k :: 0 <= k < |r| ==> r[k] < |widgets| && widgets[r[k]].dashboard == id && widgets[r[k]].isActive
    ensures forall j :: 0 <= j < |widgets| && widgets[j].dashboard == id && widgets[j].isActive ==> j in r
    ensures forall k, m :: 0 <= k < m < |r| ==> r[k] < r[m]
  {
    if widgets == [] then []
    else
      var n := |widgets| - 1;
      var init := ActiveWidgets(widgets[..n], id);
      if widgets[n].dashboard == id && widgets[n].isActive then init + [n] else init
  }

  /** `_calculate_trend`, given the values newest first: "stable" with
      fewer than two, else "up", "down" or "stable" as the newest value is
      above, below or equal to the one before. Its only caller is the KPI
      branch of `_get_widget_data`, which the failing import before it
      keeps from running; the rule itself stands on its own. */
  function TwoPointTrend(newestFirst: seq<real>): (r: string)
    ensures r == "up" <==> |newestFirst| >= 2 && newestFirst[0] > newestFirst[1]
    ensures r == "down" <==> |newestFirst| >= 2 && newestFirst[0] < newestFirst[1]
    ensures r == "stable" <==> |newestFirst| < 2 || newestFirst[0] == newestFirst[1]
  {
    if |newestFirst| < 2 then "stable"
    else if newestFirst[0] > newestFirst[1] then "up"
    else if newestFirst[0] < newestFirst[1] then "down"
    else "stable"
  }

  /** Exchanging the two newest values turns "up" into "down" and back;
      older values play no part. */
  lemma TrendSwap(a: real, b: real, older: seq<real>)
    ensures TwoPointTrend([a, b] + older) == TwoPointTrend([a, b])
    ensures TwoPointTrend([a, b]) == "up" <==> TwoPointTrend([b, a]) == "down"
  {
  }

  /** The dashboards and widgets tables. */
  class Store {
    var boards: seq<Board>
    var widgets: seq<Widget>

    constructor(boards: seq<Board>, widgets: seq<Widget>)
      ensures this.boards == boards && this.widgets == widgets
    {
      this.boards := boards;
      this.widgets := widgets;
    }

    /** The detail lookup of an action: 404 unless the dashboard exists and
      the user sees it. */
    predicate Found(u: User, pk: nat)
      reads this
    {
      pk < |boards| && VisibleTo(u, boards[pk])
    }

    /** `share`: any user who sees the dashboard may share it. */
    method Share(u: User, pk: nat, ids: set<nat>) returns (code: int)
      modifies this
      ensures !old(Found(u, pk)) ==> code == 404 && boards == old(boards)
      ensures old(Found(u, pk)) ==> code == 200 && boards == old(boards)[pk := Shared(old(boards)[pk], ids)]
      ensures widgets == old(widgets)
    {
      if !Found(u, pk) {
        return 404;
      }
      var b := boards[pk];
      boards := boards[pk := b.(sharedWith := b.sharedWith + ids, isShared := true)];
      code := 200;
    }

    /** `unshare`: the members are cleared and the flag dropped. */
    method Unshare(u: User, pk: nat) returns (code: int)
      modifies this
      ensures !old(Found(u, pk)) ==> code == 404 && boards == old(boards)
      ensures old(Found(u, pk)) ==> code == 200 && boards == old(boards)[pk := Unshared(old(boards)[pk])]
      ensures widgets == old(widgets)
    {
      if !Found(u, pk) {
        return 404;
      }
      boards := boards[pk := boards[pk].(sharedWith := {}, isShared := false)];
      code := 200;
    }

    /** `duplicate`: 404 for a dashboard the user does not see; otherwise
      the copy is appended (its id is `copy`) and then a copy of each of
      the original's widgets, active or not, in place order. */
    method Duplicate(u: User, pk: nat) returns (code: int, copy: nat)
      modifies this
      ensures !old(Found(u, pk)) ==> code == 404 && boards == old(boards) && widgets == old(widgets)
      ensures old(Found(u, pk)) ==>
        && code == 201 && copy == |old(boards)|
        && boards == old(boards) + [CopyOf(old(boards)[pk], u.id)]
        && widgets == old(widgets) + CopiedWidgets(old(widgets), pk, copy)
    {
      if !Found(u, pk) {
        return 404, 0;
      }
      copy := |boards|;
      boards := boards + [CopyOf(boards[pk], u.id)];
      var original := widgets;
      var ordered := WidgetsOf(original, pk);
      var j := 0;
      while j < |ordered|
        invariant 0 <= j <= |ordered|
        invariant boards == old(boards) + [CopyOf(old(boards)[pk], u.id)]
        invariant widgets == original + CopiedWidgets(original, pk, copy)[..j]
      {
        CopiesPrefix(original, pk, copy, j);
        widgets := widgets + [CopyWidget(ordered[j], copy)];
        j := j + 1;
      }
      CopiesPrefix(original, pk, copy, j);
      code := 201;
    }

    /** `data`: 404 for a dashboard the user does not see. Otherwise the
      filters are the effective ones, and each active widget is read by
      `_get_widget_data`, whose first statement imports a `Facility` model
      that `fati_facilities` does not define: the first active widget
      raises ImportError and the request fails with 500; a dashboard with
      no active widget answers 200 with an empty widget list. */
    method Data(u: User, pk: nat, query: map<string, string>) returns (code: int, filters: map<string, string>)
      ensures !Found(u, pk) ==> code == 404
      ensures Found(u, pk) ==>
        && filters == EffectiveFilters(boards[pk].defaultFilters, query)
        && (code == 200 <==> ActiveWidgets(widgets, pk) == [])
        && (code == 500 <==> ActiveWidgets(widgets, pk) != [])
    {
      if !Found(u, pk) {
        return 404, map[];
      }
      filters := boards[pk].defaultFilters;
      filters := filters + query;
      var j := 0;
      while j < |widgets|
        invariant 0 <= j <= |widgets|
        invariant ActiveWidgets(widgets[..j], pk) == []
      {
        assert widgets[..j + 1][..j] == widgets[..j];
        if widgets[j].dashboard == pk && widgets[j].isActive {
          return 500, filters;
        }
        j := j + 1;
      }
      assert widgets[..|widgets|] == widgets;
      code := 200;
    }
  }

  // ---------------------------------------------------------------------------
  // Reports
  // ---------------------------------------------------------------------------

  datatype ReportStatus = ReportPending | Generating | ReportCompleted | ReportFailed

  datatype Report = Report(template: nat, name: string, parameters: Document, format: string,
                           generatedBy: nat, status: ReportStatus)

  /** The generated reports. */
  class Reports {
    var rows: seq<Report>

    constructor(rows: seq<Report>)
      ensures this.rows == rows
    {
      this.rows := rows;
    }

    /** `generate`: 404 and nothing created when no template has the id
      (active or not); otherwise a report by the requester is appended,
      created PENDING and then saved COMPLETED. */
    method Generate(u: User, templates: seq<nat>, templateId: nat, name: string, parameters: Document, format: string)
      returns (code: int)
      modifies this
      ensures templateId !in templates ==> code == 404 && rows == old(rows)
      ensures templateId in templates ==>
        && code == 201
        && rows == old(rows) + [Report(templateId, name, parameters, format, u.id, ReportCompleted)]
    {
      if templateId !in templates {
        return 404;
      }
      var report := Report(templateId, name, parameters, format, u.id, ReportPending);
      rows := rows + [report];
      rows := rows[|rows| - 1 := report.(status := ReportCompleted)];
      code := 201;
    }
  }
}
