/**
 The chart viewer: building the chart from a loaded sheet, and the two checkbox panels'
 callbacks.

 A sheet row supplies the text of its second and third cells (which form its group) and
 the numeric cells of its series columns. One line is plotted for every (group, series
 column) pair, groups in order of first appearance and columns in sheet order; only the
 lines of the default column start shown.
 */
module ChartViewer {
  import opened Common
  import opened SeriesKeys
  import opened Columns
  import opened Plotting
  import opened Legend

  /** A sheet row: `str()` of its second and third cells, and the values of columns 3, 4, ... */
  datatype Row = Row(first: string, second: string, values: seq<real>)

  datatype Table = Table(columns: seq<string>, rows: seq<Row>)

  /** Every row has a value for every series column. */
  ghost predicate Rectangular(t: Table) {
    forall r :: r in t.rows ==> |r.values| == |SeriesPositions(t.columns)|
  }

  function RowGroup(r: Row): string {
    GroupName(r.first, r.second)
  }

  /** The group of every row, in row order (the helper column `group`). */
  function RowGroups(rows: seq<Row>): (gs: seq<string>)
    ensures |gs| == |rows|
    ensures forall i :: 0 <= i < |rows| ==> gs[i] == RowGroup(rows[i])
  {
    seq(|rows|, i requires 0 <= i < |rows| => RowGroup(rows[i]))
  }

  /** `df['group'].unique()`: each group once, in order of first appearance. */
  function Groups(t: Table): (gs: seq<string>)
    ensures Distinct(gs)
    ensures forall g :: g in gs <==> exists r :: r in t.rows && RowGroup(r) == g
    ensures forall g :: g in gs <==> g in RowGroups(t.rows)
    ensures forall i, j :: 0 <= i < j < |gs| ==> IndexOf(RowGroups(t.rows), gs[i]) < IndexOf(RowGroups(t.rows), gs[j])
  {
    var all := RowGroups(t.rows);
    assert forall r :: r in t.rows ==> RowGroup(r) in all by {
      forall r | r in t.rows
        ensures RowGroup(r) in all
      {
        var i :| 0 <= i < |t.rows| && t.rows[i] == r;
        assert all[i] == RowGroup(r);
      }
    }
    Unique(all)
  }

  /** The values of series column `i` over the rows of group `g`, in row order. */
  function SeriesData(rows: seq<Row>, g: string, i: nat): (data: seq<real>)
    requires forall r :: r in rows ==> i < |r.values|
    ensures |data| <= |rows|
    ensures forall x :: x in data <==> exists r :: r in rows && RowGroup(r) == g && r.values[i] == x
    ensures (exists r :: r in rows && RowGroup(r) == g) ==> |data| > 0
    decreases |rows|
  {
    if rows == [] then []
    else
      var r := rows[0];
      assert forall x :: x in rows <==> x == r || x in rows[1..];
      (if RowGroup(r) == g then [r.values[i]] else []) + SeriesData(rows[1..], g, i)
  }

  /** The line plotted for group `g` and series position `p`: shown iff `p` is the default. */
  function Entry(t: Table, g: string, p: nat, default: Option<nat>): (e: (string, Line))
    requires Rectangular(t) && IsSlot(p) && p < |t.columns|
    ensures e.0 == Key(g, t.columns[p])
    ensures e.1.visible <==> default == Some(p)
  {
    assert p in SeriesPositions(t.columns);
    (Key(g, t.columns[p]), Line(SeriesData(t.rows, g, p - FirstSlot), default == Some(p)))
  }

  /** The lines of one group, one per series position. */
  function GroupEntries(t: Table, g: string, default: Option<nat>): (es: seq<(string, Line)>)
    requires Rectangular(t)
    ensures |es| == |SeriesPositions(t.columns)|
    ensures forall i :: 0 <= i < |es| ==>
              es[i] == Entry(t, g, SeriesPositions(t.columns)[i], default)
  {
    var ps := SeriesPositions(t.columns);
    seq(|ps|, i requires 0 <= i < |ps| => Entry(t, g, ps[i], default))
  }

  /** The lines of the groups `gs`, group by group. */
  function AllEntries(t: Table, gs: seq<string>, default: Option<nat>): (es: seq<(string, Line)>)
    requires Rectangular(t)
    ensures |es| == |gs| * |SeriesPositions(t.columns)|
    ensures forall e :: e in es <==>
              exists g, p :: g in gs && p in SeriesPositions(t.columns) && e == Entry(t, g, p, default)
    decreases |gs|
  {
    if gs == [] then []
    else
      var here := GroupEntries(t, gs[0], default);
      var rest := AllEntries(t, gs[1..], default);
      var ps := SeriesPositions(t.columns);
      assert forall g :: g in gs <==> g == gs[0] || g in gs[1..];
      assert forall e :: e in here <==> exists p :: p in ps && e == Entry(t, gs[0], p, default) by {
        forall e | e in here
          ensures exists p :: p in ps && e == Entry(t, gs[0], p, default)
        {
          var i :| 0 <= i < |here| && here[i] == e;
          assert ps[i] in ps;
        }
        forall p | p in ps
          ensures Entry(t, gs[0], p, default) in here
        {
          var i :| 0 <= i < |ps| && ps[i] == p;
          assert here[i] == Entry(t, gs[0], p, default);
        }
      }
      here + rest
  }

  datatype ChartError = MissingKeyColumns

  /** The viewer's state after building the chart: lines, axis, and the two checkbox panels. */
  datatype Viewer = Viewer(plot: Plot, axis: Axis, columnBoxes: seq<CheckBox>, groupBoxes: seq<CheckBox>, groups: GroupIndex)

  /** The y limits and label are the ones fitted to the shown data, whenever there is any. */
  ghost predicate AxisFitted(v: Viewer)
    requires WellFormed(v.plot)
  {
    ShowsData(v.plot) ==> v.axis == Recompute(v.axis, v.plot)
  }

  /**
   The viewer's invariant: the line state is consistent, the group index is the one built
   from the current keys, and the group panel has one box per group label.
   */
  ghost predicate Valid(v: Viewer) {
    && WellFormed(v.plot)
    && Synced(v.plot)
    && AxisFitted(v)
    && v.groups == LegendGroups(v.plot)
    && |v.groupBoxes| == |v.groups.labels|
    && (forall i :: 0 <= i < |v.groupBoxes| ==> v.groupBoxes[i].name == v.groups.labels[i])
  }

  /** Once some shown line has data, the recomputed axis does not depend on the previous one. */
  lemma RecomputeSettles(a: Axis, b: Axis, p: Plot)
    requires WellFormed(p)
    ensures ShowsData(p) ==> Recompute(a, p) == Recompute(b, p)
  {
    if ShowsData(p) {
      VisibleValuesComplete(p);
      var k :| k in p.lines && p.lines[k].visible && p.lines[k].ys != [];
      assert p.lines != map[];
    }
  }

  /** A well-formed plot has no line exactly when its key order is empty. */
  lemma NoLinesNoOrder(p: Plot)
    requires WellFormed(p)
    ensures p.lines == map[] <==> p.order == []
  {
    if p.order != [] {
      assert p.order[0] in p.order;
    }
  }

  /**
   `create_legend_checkboxes` with the axis update before it: nothing when there are no
   lines, otherwise one column box per series column and one checked box per group label.
   */
  function Assemble(plot: Plot, start: Axis, names: seq<string>): (v: Viewer)
    requires WellFormed(plot) && Synced(plot)
    ensures Valid(v)
    ensures v.plot == plot
    ensures !ShowsData(plot) ==> v.axis == start
    ensures plot.lines == map[] ==> v.columnBoxes == [] && v.groupBoxes == []
    ensures plot.lines != map[] ==> BoxNames(v.columnBoxes) == names
    ensures plot.lines != map[] ==> v.columnBoxes == ColumnBoxes(plot, names)
    ensures forall g :: g in v.groups.labels <==> g in GroupsOfKeys(plot.order)
    ensures forall b :: b in v.groupBoxes ==> b.checked
  {
    var axis := Recompute(start, plot);
    RecomputeSettles(axis, start, plot);
    NoLinesNoOrder(plot);
    if plot.lines == map[] then
      Viewer(plot, axis, [], [], NoGroups)
    else
      var gi := IndexGroups(plot.order);
      Viewer(plot, axis, ColumnBoxes(plot, names), GroupBoxes(gi), gi)
  }

  /** The y label set before the first axis update: the default column's name, if any. */
  function StartAxis(columns: seq<string>): (a: Axis)
    ensures a.limits.None?
    ensures a.title.Some? <==> FirstSlot < |columns|
    ensures a.title.Some? ==> exists p :: IsSlot(p) && p < |columns| && a.title.value == columns[p]
    ensures a.title.Some? ==> DefaultColumn(columns).Some? && a.title.value == columns[DefaultColumn(columns).value]
  {
    match DefaultColumn(columns)
    case Some(p) => Axis(None, Some(columns[p]))
    case None => Axis(None, None)
  }

  /**
   `create_chart`: the default column, one line per (group, series column), the axis fitted
   to the shown lines, and (when there is a line) the two checkbox panels. A sheet with fewer
   than three columns has no group columns and fails.
   */
  function CreateChart(t: Table): (r: Result<Viewer, ChartError>)
    requires Rectangular(t)
    ensures r.Err? <==> |t.columns| < 3
    ensures r.Ok? ==> Valid(r.value)
    ensures r.Ok? ==> r.value.plot.lines.Keys == PairKeys(t)
    ensures r.Ok? ==> (r.value.plot.lines == map[] <==> Groups(t) == [] || SeriesPositions(t.columns) == [])
    ensures r.Ok? && r.value.plot.lines == map[] ==> r.value.columnBoxes == [] && r.value.groupBoxes == []
    ensures r.Ok? && r.value.plot.lines != map[] ==> BoxNames(r.value.columnBoxes) == SeriesColumns(t.columns)
    ensures r.Ok? ==> forall b :: b in r.value.groupBoxes ==> b.checked
    ensures r.Ok? && !ShowsData(r.value.plot) ==> r.value.axis == StartAxis(t.columns)
  {
    if |t.columns| < 3 then Err(MissingKeyColumns)
    else
      var plot := Build(t);
      BuildKeys(t);
      BuildEmpty(t);
      Ok(Assemble(plot, StartAxis(t.columns), SeriesColumns(t.columns)))
  }

  /** The lines of a sheet, added group by group in a fresh plot. */
  function Build(t: Table): (plot: Plot)
    requires Rectangular(t)
    ensures WellFormed(plot) && Synced(plot)
  {
    AddAll(EmptyPlot, AllEntries(t, Groups(t), DefaultColumn(t.columns)))
  }

  /** Every (group, series column) pair has a line. */
  lemma BuildCovers(t: Table)
    requires Rectangular(t)
    ensures forall g, p :: g in Groups(t) && p in SeriesPositions(t.columns) ==> Key(g, t.columns[p]) in Build(t).lines
  {
    var entries := AllEntries(t, Groups(t), DefaultColumn(t.columns));
    forall g, p | g in Groups(t) && p in SeriesPositions(t.columns)
      ensures Key(g, t.columns[p]) in Build(t).lines
    {
      var e := Entry(t, g, p, DefaultColumn(t.columns));
      assert e in entries;
      var i :| 0 <= i < |entries| && entries[i] == e;
      assert KeysOf(entries)[i] == e.0;
    }
  }

  /** Every line belongs to a (group, series column) pair. */
  lemma BuildOnlyPairs(t: Table)
    requires Rectangular(t)
    ensures forall k :: k in Build(t).lines ==>
              exists g, p :: g in Groups(t) && p in SeriesPositions(t.columns) && k == Key(g, t.columns[p])
  {
    var entries := AllEntries(t, Groups(t), DefaultColumn(t.columns));
    forall k | k in Build(t).lines
      ensures exists g, p :: g in Groups(t) && p in SeriesPositions(t.columns) && k == Key(g, t.columns[p])
    {
      var i :| 0 <= i < |entries| && KeysOf(entries)[i] == k;
      assert entries[i] in entries;
    }
  }

  /** The keys of all (group, series column) pairs of a sheet. */
  ghost function PairKeys(t: Table): set<string> {
    set g, p | g in Groups(t) && p in SeriesPositions(t.columns) :: Key(g, t.columns[p])
  }

  /** The lines are keyed by exactly the sheet's (group, series column) pairs. */
  lemma BuildKeys(t: Table)
    requires Rectangular(t)
    ensures Build(t).lines.Keys == PairKeys(t)
  {
    BuildCovers(t);
    BuildOnlyPairs(t);
  }

  /** There is no line exactly when there is no row or no series column. */
  lemma BuildEmpty(t: Table)
    requires Rectangular(t)
    ensures Build(t).lines == map[] <==> Groups(t) == [] || SeriesPositions(t.columns) == []
  {
    var gs := Groups(t);
    var ps := SeriesPositions(t.columns);
    if gs != [] && ps != [] {
      BuildCovers(t);
      assert Key(gs[0], t.columns[ps[0]]) in Build(t).lines;
    }
  }

  /** A plot whose keys are those of `p`, in the same order, is as well formed as `p`. */
  lemma SameKeys(p: Plot, q: Plot)
    requires WellFormed(p)
    requires q.order == p.order && forall k :: k in q.lines <==> k in p.lines
    ensures WellFormed(q)
    ensures LegendGroups(q) == LegendGroups(p)
  {
    if p.lines != map[] {
      var k :| k in p.lines;
      assert k in q.lines;
    }
    if q.lines != map[] {
      var k :| k in q.lines;
      assert k in p.lines;
    }
  }

  /**
   `y_checkbox_callback(name)`: every line whose key contains `"_" + name` is flipped
   between shown and hidden, then the axis is refitted.
   */
  function OnColumnToggled(v: Viewer, name: string): (r: Viewer)
    requires Valid(v)
    ensures Valid(r)
    ensures r.plot.order == v.plot.order
    ensures forall k :: k in r.plot.lines <==> k in v.plot.lines
    ensures forall k :: k in v.plot.lines ==> r.plot.lines[k].ys == v.plot.lines[k].ys
    ensures forall k :: k in v.plot.lines ==>
              r.plot.lines[k].visible == (v.plot.lines[k].visible != ColumnMatches(k, name))
    ensures r.columnBoxes == v.columnBoxes && r.groupBoxes == v.groupBoxes && r.groups == v.groups
    ensures !ShowsData(r.plot) ==> r.axis == v.axis
  {
    var plot := Toggle(v.plot, v.plot.order, k => ColumnMatches(k, name));
    ToggleKeepsSync(v.plot, v.plot.order, k => ColumnMatches(k, name));
    SameKeys(v.plot, plot);
    var axis := Recompute(v.axis, plot);
    RecomputeSettles(axis, v.axis, plot);
    v.(plot := plot, axis := axis)
  }

  /** The keys filed under a group label are duplicate-free and are those whose group it is. */
  lemma GroupMembers(v: Viewer, name: string)
    requires Valid(v) && name in v.groups.members
    ensures Distinct(v.groups.members[name])
    ensures forall k :: k in v.groups.members[name] <==> k in v.plot.lines && GroupOf(k) == name
  {
  }

  /**
   `group_checkbox_callback(name)`: every line filed under the group label `name` is
   flipped between shown and hidden, then the axis is refitted.
   */
  function OnGroupToggled(v: Viewer, name: string): (r: Viewer)
    requires Valid(v) && name in v.groups.members
    ensures Valid(r)
    ensures r.plot.order == v.plot.order
    ensures forall k :: k in r.plot.lines <==> k in v.plot.lines
    ensures forall k :: k in v.plot.lines ==> r.plot.lines[k].ys == v.plot.lines[k].ys
    ensures forall k :: k in v.plot.lines ==>
              r.plot.lines[k].visible == (v.plot.lines[k].visible != (GroupOf(k) == name))
    ensures r.columnBoxes == v.columnBoxes && r.groupBoxes == v.groupBoxes && r.groups == v.groups
    ensures !ShowsData(r.plot) ==> r.axis == v.axis
  {
    GroupMembers(v, name);
    var keys := v.groups.members[name];
    var plot := Toggle(v.plot, keys, k => true);
    ToggleKeepsSync(v.plot, keys, k => true);
    SameKeys(v.plot, plot);
    var axis := Recompute(v.axis, plot);
    RecomputeSettles(axis, v.axis, plot);
    v.(plot := plot, axis := axis)
  }

  /** Ticking a column box changes nothing the invariant speaks of. */
  lemma ColumnTickKeepsValid(v: Viewer, i: nat)
    requires Valid(v) && i < |v.columnBoxes|
    ensures Valid(v.(columnBoxes := Tick(v.columnBoxes, i)))
  {
  }

  /** Ticking a group box keeps the box names, so the invariant still holds. */
  lemma GroupTickKeepsValid(v: Viewer, i: nat)
    requires Valid(v) && i < |v.groupBoxes|
    ensures Valid(v.(groupBoxes := Tick(v.groupBoxes, i)))
  {
    var w := v.(groupBoxes := Tick(v.groupBoxes, i));
    assert forall j :: 0 <= j < |w.groupBoxes| ==> w.groupBoxes[j].name == v.groupBoxes[j].name;
    assert AxisFitted(w) by {
      assert w.plot == v.plot && w.axis == v.axis;
    }
  }

  /** Every group box names a label of the group index. */
  lemma GroupBoxIndexed(v: Viewer, i: nat)
    requires Valid(v) && i < |v.groupBoxes|
    ensures v.groupBoxes[i].name in v.groups.members
  {
    assert v.groupBoxes[i].name in v.groups.labels;
  }

  /**
   A click on column box `i`, as delivered to a live widget: the box changes its tick and
   its callback runs.
   */
  function ClickColumnBox(v: Viewer, i: nat): (r: Viewer)
    requires Valid(v) && i < |v.columnBoxes|
    ensures Valid(r)
    ensures |r.columnBoxes| == |v.columnBoxes| && r.groupBoxes == v.groupBoxes
    ensures r.columnBoxes[i].name == v.columnBoxes[i].name
    ensures r.columnBoxes[i].checked == !v.columnBoxes[i].checked
    ensures forall j :: 0 <= j < |v.columnBoxes| && j != i ==> r.columnBoxes[j] == v.columnBoxes[j]
    ensures r.plot.order == v.plot.order && r.groups == v.groups
    ensures forall k :: k in r.plot.lines <==> k in v.plot.lines
    ensures forall k :: k in v.plot.lines ==> r.plot.lines[k].ys == v.plot.lines[k].ys
    ensures forall k :: k in v.plot.lines ==>
              r.plot.lines[k].visible == (v.plot.lines[k].visible != ColumnMatches(k, v.columnBoxes[i].name))
    ensures !ShowsData(r.plot) ==> r.axis == v.axis
  {
    ColumnTickKeepsValid(v, i);
    OnColumnToggled(v.(columnBoxes := Tick(v.columnBoxes, i)), v.columnBoxes[i].name)
  }

  /**
   A click on group box `i`, as delivered to a live widget: the box changes its tick and
   its callback runs.
   */
  function ClickGroupBox(v: Viewer, i: nat): (r: Viewer)
    requires Valid(v) && i < |v.groupBoxes|
    ensures Valid(r)
    ensures |r.groupBoxes| == |v.groupBoxes| && r.columnBoxes == v.columnBoxes
    ensures r.groupBoxes[i].name == v.groupBoxes[i].name
    ensures r.groupBoxes[i].checked == !v.groupBoxes[i].checked
    ensures forall j :: 0 <= j < |v.groupBoxes| && j != i ==> r.groupBoxes[j] == v.groupBoxes[j]
    ensures r.plot.order == v.plot.order && r.groups == v.groups
    ensures forall k :: k in r.plot.lines <==> k in v.plot.lines
    ensures forall k :: k in v.plot.lines ==> r.plot.lines[k].ys == v.plot.lines[k].ys
    ensures forall k :: k in v.plot.lines ==>
              r.plot.lines[k].visible == (v.plot.lines[k].visible != (GroupOf(k) == v.groupBoxes[i].name))
    ensures !ShowsData(r.plot) ==> r.axis == v.axis
  {
    GroupTickKeepsValid(v, i);
    GroupBoxIndexed(v, i);
    OnGroupToggled(v.(groupBoxes := Tick(v.groupBoxes, i)), v.groupBoxes[i].name)
  }

  /** Ticking the same box twice restores the panel. */
  lemma TickTwice(boxes: seq<CheckBox>, i: nat)
    requires i < |boxes|
    ensures Tick(Tick(boxes, i), i) == boxes
  {
    var twice := Tick(Tick(boxes, i), i);
    assert twice[i] == boxes[i];
  }

  /**
   Clicking a column box twice restores the lines and both panels, and, when some shown line
   has data, the whole viewer.
   */
  lemma ColumnClickTwice(v: Viewer, i: nat)
    requires Valid(v) && i < |v.columnBoxes|
    ensures ClickColumnBox(ClickColumnBox(v, i), i).plot == v.plot
    ensures ClickColumnBox(ClickColumnBox(v, i), i).columnBoxes == v.columnBoxes
    ensures ShowsData(v.plot) ==> ClickColumnBox(ClickColumnBox(v, i), i) == v
  {
    var name := v.columnBoxes[i].name;
    var once := ClickColumnBox(v, i);
    ToggleTwice(v.plot, v.plot.order, k => ColumnMatches(k, name));
    TickTwice(v.columnBoxes, i);
    RecomputeSettles(v.axis, once.axis, v.plot);
  }

  /**
   Clicking a group box twice restores the lines and both panels, and, when some shown line
   has data, the whole viewer.
   */
  lemma GroupClickTwice(v: Viewer, i: nat)
    requires Valid(v) && i < |v.groupBoxes|
    ensures ClickGroupBox(ClickGroupBox(v, i), i).plot == v.plot
    ensures ClickGroupBox(ClickGroupBox(v, i), i).groupBoxes == v.groupBoxes
    ensures ShowsData(v.plot) ==> ClickGroupBox(ClickGroupBox(v, i), i) == v
  {
    var name := v.groupBoxes[i].name;
    assert name in v.groups.labels;
    GroupMembers(v, name);
    var once := ClickGroupBox(v, i);
    ToggleTwice(v.plot, v.groups.members[name], k => true);
    TickTwice(v.groupBoxes, i);
    RecomputeSettles(v.axis, once.axis, v.plot);
  }

  /**
   The two panels flip lines independently, so a shown line whose column box and group box
   are both clicked (both unticked, when they started ticked) is shown again.
   */
  lemma BothBoxesClicked(v: Viewer, i: nat, j: nat, k: string)
    requires Valid(v) && i < |v.columnBoxes| && j < |v.groupBoxes|
    requires k in v.plot.lines && ColumnMatches(k, v.columnBoxes[i].name) && GroupOf(k) == v.groupBoxes[j].name
    ensures ClickGroupBox(ClickColumnBox(v, i), j).plot.lines[k].visible == v.plot.lines[k].visible
    ensures ClickGroupBox(ClickColumnBox(v, i), j).columnBoxes[i].checked == !v.columnBoxes[i].checked
    ensures ClickGroupBox(ClickColumnBox(v, i), j).groupBoxes[j].checked == !v.groupBoxes[j].checked
  {
    var once := ClickColumnBox(v, i);
    assert !once.plot.lines[k].visible == v.plot.lines[k].visible;
  }

  /** No group cell holds `_`, so every key splits back into its group and column. */
  ghost predicate PlainCells(t: Table) {
    forall r :: r in t.rows ==> Sep !in r.first && Sep !in r.second
  }

  lemma PlainGroups(t: Table)
    requires PlainCells(t)
    ensures forall g :: g in Groups(t) ==> Sep !in g
  {
    forall g | g in Groups(t)
      ensures Sep !in g
    {
      var r :| r in t.rows && RowGroup(r) == g;
      GroupNameUnderscore(r.first, r.second);
    }
  }

  /** The keys of one group's lines are all different when the series column names are. */
  lemma GroupKeysDistinct(t: Table, g: string, default: Option<nat>)
    requires Rectangular(t) && Distinct(SeriesColumns(t.columns))
    ensures Distinct(KeysOf(GroupEntries(t, g, default)))
  {
    var keys := KeysOf(GroupEntries(t, g, default));
    var names := SeriesColumns(t.columns);
    forall i, j | 0 <= i < j < |keys|
      ensures keys[i] != keys[j]
    {
      assert keys[i] == g + [Sep] + names[i];
      assert keys[j] == g + [Sep] + names[j];
      assert keys[i][|g| + 1..] == names[i] && keys[j][|g| + 1..] == names[j];
    }
  }

  /** The keys of a group's lines differ from the keys of the other groups' lines. */
  lemma GroupKeysApart(t: Table, g: string, others: seq<string>, default: Option<nat>)
    requires Rectangular(t) && g !in others
    requires Sep !in g && forall h :: h in others ==> Sep !in h
    ensures forall x :: x in KeysOf(GroupEntries(t, g, default)) ==> x !in KeysOf(AllEntries(t, others, default))
  {
    OwnGroupKeys(t, g, default);
    OtherGroupKeys(t, others, default);
  }

  /** The keys of a group's lines split back to that group. */
  lemma OwnGroupKeys(t: Table, g: string, default: Option<nat>)
    requires Rectangular(t) && Sep !in g
    ensures forall x :: x in KeysOf(GroupEntries(t, g, default)) ==> GroupOf(x) == g
  {
    var keys := KeysOf(GroupEntries(t, g, default));
    forall x | x in keys
      ensures GroupOf(x) == g
    {
      var i :| 0 <= i < |keys| && keys[i] == x;
      assert x == Key(g, t.columns[FirstSlot + i]);
      KeySplitsBack(g, t.columns[FirstSlot + i]);
    }
  }

  /** The keys of the lines of groups `gs` split back to one of those groups. */
  lemma OtherGroupKeys(t: Table, gs: seq<string>, default: Option<nat>)
    requires Rectangular(t) && forall h :: h in gs ==> Sep !in h
    ensures forall x :: x in KeysOf(AllEntries(t, gs, default)) ==> GroupOf(x) in gs
  {
    var es := AllEntries(t, gs, default);
    forall x | x in KeysOf(es)
      ensures GroupOf(x) in gs
    {
      var j :| 0 <= j < |es| && KeysOf(es)[j] == x;
      assert es[j] in es;
      var h, p :| h in gs && p in SeriesPositions(t.columns) && es[j] == Entry(t, h, p, default);
      KeySplitsBack(h, t.columns[p]);
    }
  }

  /**
   With underscore-free, distinct groups and distinct series column names, no two lines get
   the same key.
   */
  lemma {:induction false} EntryKeysDistinct(t: Table, gs: seq<string>, default: Option<nat>)
    requires Rectangular(t) && Distinct(SeriesColumns(t.columns))
    requires Distinct(gs) && forall g :: g in gs ==> Sep !in g
    ensures Distinct(KeysOf(AllEntries(t, gs, default)))
    decreases |gs|
  {
    if gs != [] {
      var g := gs[0];
      var here := GroupEntries(t, g, default);
      var rest := AllEntries(t, gs[1..], default);
      assert AllEntries(t, gs, default) == here + rest;
      assert KeysOf(here + rest) == KeysOf(here) + KeysOf(rest);
      assert Distinct(gs[1..]) && g !in gs[1..] by {
        assert forall i :: 0 <= i < |gs[1..]| ==> gs[1..][i] == gs[i + 1];
      }
      EntryKeysDistinct(t, gs[1..], default);
      GroupKeysDistinct(t, g, default);
      GroupKeysApart(t, g, gs[1..], default);
      DistinctConcat(KeysOf(here), KeysOf(rest));
    }
  }

  /**
   On a sheet with underscore-free group cells and distinct series column names, the chart
   has one line per (group, series column), added group by group in sheet column order.
   */
  lemma CreatedOrder(t: Table)
    requires Rectangular(t)
    requires PlainCells(t) && Distinct(SeriesColumns(t.columns))
    ensures Build(t).order == KeysOf(AllEntries(t, Groups(t), DefaultColumn(t.columns)))
    ensures |Build(t).order| == |Groups(t)| * |SeriesPositions(t.columns)|
  {
    var entries := AllEntries(t, Groups(t), DefaultColumn(t.columns));
    PlainGroups(t);
    EntryKeysDistinct(t, Groups(t), DefaultColumn(t.columns));
    AddAllAppends(EmptyPlot, entries);
  }

  /** The line stored under the key of a (group, series column) pair is that pair's line. */
  lemma StoredLine(t: Table, g: string, p: nat)
    requires Rectangular(t)
    requires PlainCells(t) && Distinct(SeriesColumns(t.columns))
    requires g in Groups(t) && p in SeriesPositions(t.columns)
    ensures Key(g, t.columns[p]) in Build(t).lines
    ensures Build(t).lines[Key(g, t.columns[p])] == Entry(t, g, p, DefaultColumn(t.columns)).1
  {
    var default := DefaultColumn(t.columns);
    var entries := AllEntries(t, Groups(t), default);
    PlainGroups(t);
    EntryKeysDistinct(t, Groups(t), default);
    AddAllStoresEach(EmptyPlot, entries);
    var e := Entry(t, g, p, default);
    assert e in entries;
  }

  /**
   On the same sheets, each line holds its group's values of its column and is shown exactly
   when its column is the default one.
   */
  lemma CreatedLines(t: Table)
    requires Rectangular(t)
    requires PlainCells(t) && Distinct(SeriesColumns(t.columns))
    ensures forall g, p :: g in Groups(t) && p in SeriesPositions(t.columns) ==>
              && Key(g, t.columns[p]) in Build(t).lines
              && Build(t).lines[Key(g, t.columns[p])].ys == SeriesData(t.rows, g, p - FirstSlot)
              && (Build(t).lines[Key(g, t.columns[p])].visible <==> DefaultColumn(t.columns) == Some(p))
  {
    forall g, p | g in Groups(t) && p in SeriesPositions(t.columns)
      ensures Key(g, t.columns[p]) in Build(t).lines
      ensures Build(t).lines[Key(g, t.columns[p])].ys == SeriesData(t.rows, g, p - FirstSlot)
      ensures Build(t).lines[Key(g, t.columns[p])].visible <==> DefaultColumn(t.columns) == Some(p)
    {
      StoredLine(t, g, p);
    }
  }

  /** The (group, series column) pair a line's key came from, which the key splits back into. */
  lemma PairOfKey(t: Table, k: string) returns (g: string, p: nat)
    requires Rectangular(t) && PlainCells(t) && k in Build(t).lines
    ensures g in Groups(t) && p in SeriesPositions(t.columns) && k == Key(g, t.columns[p])
    ensures GroupOf(k) == g && ColumnOf(k) == t.columns[p]
  {
    BuildOnlyPairs(t);
    g, p :| g in Groups(t) && p in SeriesPositions(t.columns) && k == Key(g, t.columns[p]);
    PlainGroups(t);
    KeySplitsBack(g, t.columns[p]);
  }

  /** Two series positions with the same column name are the same position. */
  lemma SamePosition(t: Table, p: nat, q: nat)
    requires Distinct(SeriesColumns(t.columns))
    requires p in SeriesPositions(t.columns) && q in SeriesPositions(t.columns)
    requires t.columns[p] == t.columns[q]
    ensures p == q
  {
    var names := SeriesColumns(t.columns);
    assert names[p - FirstSlot] == t.columns[p] && names[q - FirstSlot] == t.columns[q];
  }

  /** A line starts shown exactly when its key names the default column. */
  lemma ShownIffDefault(t: Table, k: string)
    requires Rectangular(t) && PlainCells(t) && Distinct(SeriesColumns(t.columns))
    requires k in Build(t).lines
    ensures Build(t).lines[k].visible <==>
              DefaultColumn(t.columns).Some? && ColumnOf(k) == t.columns[DefaultColumn(t.columns).value]
  {
    var default := DefaultColumn(t.columns);
    var g, p := PairOfKey(t, k);
    StoredLine(t, g, p);
    if default.Some? {
      assert default.value in SeriesPositions(t.columns);
      if t.columns[p] == t.columns[default.value] {
        SamePosition(t, p, default.value);
      }
    }
  }

  /**
   On the same sheets, a line starts shown exactly when the column its key names is the
   default column.
   */
  lemma InitialVisibility(t: Table)
    requires Rectangular(t)
    requires PlainCells(t) && Distinct(SeriesColumns(t.columns))
    ensures forall k :: k in Build(t).lines ==>
              (Build(t).lines[k].visible <==>
                 DefaultColumn(t.columns).Some? && ColumnOf(k) == t.columns[DefaultColumn(t.columns).value])
  {
    forall k | k in Build(t).lines
      ensures Build(t).lines[k].visible <==>
                DefaultColumn(t.columns).Some? && ColumnOf(k) == t.columns[DefaultColumn(t.columns).value]
    {
      ShownIffDefault(t, k);
    }
  }

  /** A sheet with a row has a group. */
  lemma SomeGroup(t: Table)
    requires t.rows != []
    ensures Groups(t) != []
  {
    assert RowGroup(t.rows[0]) in Groups(t);
  }

  /** The initial tick of the column box for series column `n`. */
  lemma InitialTick(t: Table, n: string)
    requires Rectangular(t) && t.rows != []
    requires PlainCells(t) && Distinct(SeriesColumns(t.columns))
    requires n in SeriesColumns(t.columns)
    ensures ShownMatch(Build(t), n) <==> DefaultColumn(t.columns).Some? && Selects(t.columns[DefaultColumn(t.columns).value], n)
  {
    var plot := Build(t);
    var default := DefaultColumn(t.columns);
    var names := SeriesColumns(t.columns);
    if k :| k in plot.lines && ColumnMatches(k, n) && k in plot.visibility && plot.visibility[k] {
      var g, p := PairOfKey(t, k);
      ShownIffDefault(t, k);
      assert names[p - FirstSlot] == t.columns[p];
      PlainGroups(t);
      ColumnMatchIff(g, t.columns[p], n);
    }
    if default.Some? && Selects(t.columns[default.value], n) {
      var d := default.value;
      SomeGroup(t);
      var g0 := Groups(t)[0];
      PlainGroups(t);
      assert d in SeriesPositions(t.columns);
      assert names[d - FirstSlot] == t.columns[d];
      var k := Key(g0, t.columns[d]);
      StoredLine(t, g0, d);
      ColumnMatchIff(g0, t.columns[d], n);
      assert k in plot.lines && ColumnMatches(k, n) && k in plot.visibility && plot.visibility[k];
    }
  }

  /** The ticks of the column boxes built over the initial lines. */
  lemma InitialTicks(t: Table)
    requires Rectangular(t) && t.rows != []
    requires PlainCells(t) && Distinct(SeriesColumns(t.columns))
    ensures forall i :: 0 <= i < |SeriesColumns(t.columns)| ==>
              (ColumnBoxes(Build(t), SeriesColumns(t.columns))[i].checked <==>
                 DefaultColumn(t.columns).Some? && Selects(t.columns[DefaultColumn(t.columns).value], SeriesColumns(t.columns)[i]))
  {
    var names := SeriesColumns(t.columns);
    forall i | 0 <= i < |names|
      ensures ColumnBoxes(Build(t), names)[i].checked <==>
                DefaultColumn(t.columns).Some? && Selects(t.columns[DefaultColumn(t.columns).value], names[i])
    {
      InitialTick(t, names[i]);
    }
  }

  /**
   On sheets with a row, underscore-free group cells and distinct series column names, the
   column box of `name` starts ticked exactly when `name` selects the default column: the
   default column's own box, any box whose name is a proper prefix of it, and any box whose
   name follows a `_` inside it.
   */
  lemma InitialColumnBoxes(t: Table)
    requires Rectangular(t) && |t.columns| >= 3 && t.rows != []
    requires PlainCells(t) && Distinct(SeriesColumns(t.columns))
    ensures |CreateChart(t).value.columnBoxes| == |SeriesColumns(t.columns)|
    ensures forall i :: 0 <= i < |SeriesColumns(t.columns)| ==>
              (CreateChart(t).value.columnBoxes[i].checked <==>
                 DefaultColumn(t.columns).Some? && Selects(t.columns[DefaultColumn(t.columns).value], SeriesColumns(t.columns)[i]))
  {
    var names := SeriesColumns(t.columns);
    var plot := Build(t);
    var v := Assemble(plot, StartAxis(t.columns), names);
    assert CreateChart(t) == Ok(v);
    if names != [] {
      assert plot.lines != map[] by {
        SomeGroup(t);
        BuildEmpty(t);
      }
      InitialTicks(t);
    }
  }

  /** Every row group labels the line of its first series column. */
  lemma GroupHasLine(t: Table, g: string)
    requires Rectangular(t) && |t.columns| > FirstSlot && PlainCells(t) && g in Groups(t)
    ensures Key(g, t.columns[FirstSlot]) in Build(t).lines
    ensures GroupOf(Key(g, t.columns[FirstSlot])) == g
  {
    assert FirstSlot in SeriesPositions(t.columns);
    BuildCovers(t);
    PlainGroups(t);
    KeySplitsBack(g, t.columns[FirstSlot]);
  }

  /** A key's group label is a row group, and every row group labels some key. */
  lemma LabelsAreGroups(t: Table)
    requires Rectangular(t) && |t.columns| > FirstSlot && PlainCells(t)
    ensures forall g :: g in GroupsOfKeys(Build(t).order) <==> g in Groups(t)
  {
    var plot := Build(t);
    GroupsOfKeysMembers(plot.order);
    forall k | k in plot.order
      ensures GroupOf(k) in Groups(t)
    {
      var h, p := PairOfKey(t, k);
    }
    forall g | g in Groups(t)
      ensures exists k :: k in plot.order && GroupOf(k) == g
    {
      GroupHasLine(t, g);
    }
  }

  /**
   On sheets with a series column and underscore-free group cells, the group panel has one
   label per row group.
   */
  lemma GroupLabels(t: Table)
    requires Rectangular(t) && |t.columns| > FirstSlot && PlainCells(t)
    ensures forall g :: g in CreateChart(t).value.groups.labels <==> g in Groups(t)
  {
    var plot := Build(t);
    var v := Assemble(plot, StartAxis(t.columns), SeriesColumns(t.columns));
    assert CreateChart(t) == Ok(v);
    LabelsAreGroups(t);
  }
}
