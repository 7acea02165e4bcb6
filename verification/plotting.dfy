/**
 The viewer's line state and the operations on it.

 `Plot` holds the viewer's two dictionaries keyed by series key: `lines` (each line's y data
 and whether it is shown) and `visibility` (the viewer's own record of each line's shown
 flag). `order` is the dictionaries' insertion order. Rendering itself is not modelled; a
 `Line` keeps only what the viewer reads back from the plotted line.
 */
module Plotting {
  import opened Common
  import opened SeriesKeys
  import opened AxisRange

  datatype Line = Line(ys: seq<real>, visible: bool)

  datatype Plot = Plot(order: seq<string>, lines: map<string, Line>, visibility: map<string, bool>)

  const EmptyPlot: Plot := Plot([], map[], map[])

  /** `order` lists every key of `lines` exactly once. */
  ghost predicate WellFormed(p: Plot) {
    && Distinct(p.order)
    && forall k :: k in p.lines <==> k in p.order
  }

  /** The visibility record has the same keys as the lines and agrees with each line. */
  ghost predicate Synced(p: Plot) {
    && (forall k :: k in p.visibility <==> k in p.lines)
    && forall k :: k in p.lines ==> p.visibility[k] == p.lines[k].visible
  }

  /** `self.lines[key] = line; self.line_visibility[key] = visible`. */
  function Add(p: Plot, key: string, line: Line): (r: Plot)
    ensures WellFormed(p) ==> WellFormed(r)
    ensures Synced(p) ==> Synced(r)
    ensures p.order <= r.order
    ensures key in r.lines && r.lines[key] == line
    ensures forall k :: k != key ==> (k in r.lines <==> k in p.lines)
    ensures forall k :: k != key && k in p.lines ==> r.lines[k] == p.lines[k]
    ensures WellFormed(p) && key !in p.lines ==> r.order == p.order + [key]
  {
    Plot(if key in p.lines then p.order else p.order + [key],
         p.lines[key := line],
         p.visibility[key := line.visible])
  }

  /** The keys of a list of (key, line) entries, in order. */
  function KeysOf(entries: seq<(string, Line)>): (keys: seq<string>)
    ensures |keys| == |entries|
    ensures forall i :: 0 <= i < |entries| ==> keys[i] == entries[i].0
  {
    seq(|entries|, i requires 0 <= i < |entries| => entries[i].0)
  }

  /**
   Adds the entries one after another. A key added twice keeps its first position and its
   last line.
   */
  function AddAll(p: Plot, entries: seq<(string, Line)>): (r: Plot)
    ensures WellFormed(p) ==> WellFormed(r)
    ensures Synced(p) ==> Synced(r)
    ensures forall k :: k in r.lines <==> k in p.lines || k in KeysOf(entries)
    ensures forall k :: k in r.lines ==> (k in p.lines && r.lines[k] == p.lines[k]) || (k, r.lines[k]) in entries
    decreases |entries|
  {
    if entries == [] then p
    else
      var e := entries[0];
      assert KeysOf(entries) == [e.0] + KeysOf(entries[1..]);
      assert forall x :: x in entries[1..] ==> x in entries;
      AddAll(Add(p, e.0, e.1), entries[1..])
  }

  /** Dropping the first entry keeps the remaining keys duplicate-free and without it. */
  lemma DistinctKeysTail(entries: seq<(string, Line)>)
    requires |entries| > 0 && Distinct(KeysOf(entries))
    ensures Distinct(KeysOf(entries[1..])) && entries[0].0 !in KeysOf(entries[1..])
    ensures KeysOf(entries) == [entries[0].0] + KeysOf(entries[1..])
  {
    var keys := KeysOf(entries);
    var tail := KeysOf(entries[1..]);
    assert forall i :: 0 <= i < |tail| ==> tail[i] == keys[i + 1];
    assert keys == [entries[0].0] + tail;
  }

  /** When the entries' keys are all different, each entry's line is the one stored. */
  lemma {:induction false} AddAllStoresEach(p: Plot, entries: seq<(string, Line)>)
    requires Distinct(KeysOf(entries))
    ensures forall e :: e in entries ==> AddAll(p, entries).lines[e.0] == e.1
    decreases |entries|
  {
    if entries != [] {
      var e := entries[0];
      var rest := entries[1..];
      DistinctKeysTail(entries);
      var q := Add(p, e.0, e.1);
      AddAllStoresEach(q, rest);
      AddAllKeepsOthers(q, rest, e.0);
      assert forall x :: x in entries ==> x == e || x in rest;
    }
  }

  /** When the entries' keys are all different and new, they are appended in entry order. */
  lemma {:induction false} AddAllAppends(p: Plot, entries: seq<(string, Line)>)
    requires WellFormed(p) && Distinct(KeysOf(entries))
    requires forall k :: k in KeysOf(entries) ==> k !in p.lines
    ensures AddAll(p, entries).order == p.order + KeysOf(entries)
    decreases |entries|
  {
    if entries != [] {
      var e := entries[0];
      var rest := entries[1..];
      assert (p.order + [e.0]) + KeysOf(rest) == p.order + ([e.0] + KeysOf(rest));
      DistinctKeysTail(entries);
      var q := Add(p, e.0, e.1);
      assert WellFormed(q) && q.order == p.order + [e.0] by {
        assert e.0 in KeysOf(entries);
      }
      assert forall k :: k in KeysOf(rest) ==> k !in q.lines by {
        forall k | k in KeysOf(rest)
          ensures k !in q.lines
        {
          assert k in KeysOf(entries) && k != e.0;
        }
      }
      AddAllAppends(q, rest);
      var r := AddAll(q, rest);
      assert AddAll(p, entries) == r;
      assert r.order == q.order + KeysOf(rest);
    }
  }


  /** A key that no entry names keeps the line it had. */
  lemma {:induction false} AddAllKeepsOthers(p: Plot, entries: seq<(string, Line)>, k: string)
    requires k in p.lines && k !in KeysOf(entries)
    ensures AddAll(p, entries).lines[k] == p.lines[k]
    decreases |entries|
  {
    if entries != [] {
      var e := entries[0];
      assert KeysOf(entries) == [e.0] + KeysOf(entries[1..]);
      AddAllKeepsOthers(Add(p, e.0, e.1), entries[1..], k);
    }
  }

  /** Shows a hidden line or hides a shown one, recording the new state in `visibility`. */
  function Flip(p: Plot, key: string): Plot
    requires key in p.lines
  {
    var line := p.lines[key];
    var flipped := line.(visible := !line.visible);
    p.(lines := p.lines[key := flipped], visibility := p.visibility[key := flipped.visible])
  }

  /**
   The body of both checkbox callbacks: walk `candidates` and flip every one that is a line
   and is `selected`.
   */
  function Toggle(p: Plot, candidates: seq<string>, selected: string -> bool): (r: Plot)
    requires Distinct(candidates)
    ensures r.order == p.order
    ensures forall k :: k in r.lines <==> k in p.lines
    ensures forall k :: k in p.lines ==> r.lines[k].ys == p.lines[k].ys
    ensures forall k :: k in p.lines ==>
              r.lines[k].visible == (p.lines[k].visible != (k in candidates && selected(k)))
    ensures forall k :: k in r.visibility <==> k in p.visibility || (k in p.lines && k in candidates && selected(k))
    ensures forall k :: k in r.visibility && !(k in p.lines && k in candidates && selected(k)) ==>
              r.visibility[k] == p.visibility[k]
    ensures forall k :: k in p.lines && k in candidates && selected(k) ==> r.visibility[k] == r.lines[k].visible
    decreases |candidates|
  {
    if candidates == [] then p
    else
      var k := candidates[0];
      var rest := candidates[1..];
      assert k !in rest by {
        forall i | 0 <= i < |rest|
          ensures rest[i] != k
        {
          assert rest[i] == candidates[i + 1];
        }
      }
      assert Distinct(rest) by {
        forall i, j | 0 <= i < j < |rest|
          ensures rest[i] != rest[j]
        {
          assert rest[i] == candidates[i + 1] && rest[j] == candidates[j + 1];
        }
      }
      assert forall x :: x in candidates <==> x == k || x in rest;
      var p' := if k in p.lines && selected(k) then Flip(p, k) else p;
      Toggle(p', rest, selected)
  }

  /** Toggling keeps the visibility record in step with the lines. */
  lemma ToggleKeepsSync(p: Plot, candidates: seq<string>, selected: string -> bool)
    requires Distinct(candidates) && Synced(p)
    ensures Synced(Toggle(p, candidates, selected))
  {
  }

  /** Toggling the same candidates twice restores every line. */
  lemma ToggleTwiceLines(p: Plot, candidates: seq<string>, selected: string -> bool)
    requires Distinct(candidates)
    ensures Toggle(Toggle(p, candidates, selected), candidates, selected).lines == p.lines
  {
    var once := Toggle(p, candidates, selected);
    var twice := Toggle(once, candidates, selected);
    forall k | k in p.lines
      ensures twice.lines[k] == p.lines[k]
    {
      assert twice.lines[k].ys == p.lines[k].ys;
      assert twice.lines[k].visible == p.lines[k].visible;
    }
  }

  /** Toggling the same candidates twice restores the visibility record of a synced plot. */
  lemma ToggleTwiceRecord(p: Plot, candidates: seq<string>, selected: string -> bool)
    requires Distinct(candidates) && Synced(p)
    ensures Toggle(Toggle(p, candidates, selected), candidates, selected).visibility == p.visibility
  {
    var once := Toggle(p, candidates, selected);
    var twice := Toggle(once, candidates, selected);
    forall k | k in p.visibility
      ensures k in twice.visibility && twice.visibility[k] == p.visibility[k]
    {
    }
    assert twice.visibility.Keys == p.visibility.Keys;
  }

  /** Toggling the same candidates twice restores the line state. */
  lemma ToggleTwice(p: Plot, candidates: seq<string>, selected: string -> bool)
    requires Distinct(candidates) && Synced(p)
    ensures Toggle(Toggle(p, candidates, selected), candidates, selected) == p
  {
    ToggleTwiceLines(p, candidates, selected);
    ToggleTwiceRecord(p, candidates, selected);
  }

  /** `visible_data`: the y values of the shown lines, in key order. */
  function Gather(p: Plot, keys: seq<string>): (data: seq<real>)
    ensures forall x :: x in data <==>
              exists k :: k in keys && k in p.lines && p.lines[k].visible && x in p.lines[k].ys
    decreases |keys|
  {
    if keys == [] then []
    else
      var k := keys[0];
      var here := if k in p.lines && p.lines[k].visible then p.lines[k].ys else [];
      assert forall x :: x in keys <==> x == k || x in keys[1..];
      here + Gather(p, keys[1..])
  }

  function VisibleValues(p: Plot): seq<real> {
    Gather(p, p.order)
  }

  /** Some shown line has at least one value. */
  ghost predicate ShowsData(p: Plot) {
    exists k :: k in p.lines && p.lines[k].visible && p.lines[k].ys != []
  }

  /** Every value of every shown line lies strictly inside the limits. */
  ghost predicate Encloses(b: Limits, p: Plot) {
    forall k, x :: k in p.lines && p.lines[k].visible && x in p.lines[k].ys ==> b.low < x < b.high
  }

  /** The gathered values are exactly those of the shown lines. */
  lemma VisibleValuesComplete(p: Plot)
    requires WellFormed(p)
    ensures VisibleValues(p) != [] <==> ShowsData(p)
    ensures forall k, x :: k in p.lines && p.lines[k].visible && x in p.lines[k].ys ==> x in VisibleValues(p)
  {
    var data := VisibleValues(p);
    forall k, x | k in p.lines && p.lines[k].visible && x in p.lines[k].ys
      ensures x in data
    {
      assert k in p.order;
    }
    if data != [] {
      assert data[0] in data;
    }
    if ShowsData(p) {
      var k :| k in p.lines && p.lines[k].visible && p.lines[k].ys != [];
      assert p.lines[k].ys[0] in data;
    }
  }

  /** The set of column names of the shown lines (the `visible_y_cols` set). */
  ghost function VisibleColumns(p: Plot): set<string> {
    set k | k in p.lines && p.lines[k].visible :: ColumnOf(k)
  }

  /** The column names of the shown lines among `keys`, in order, with repeats. */
  function ShownColumns(p: Plot, keys: seq<string>): (names: seq<string>)
    ensures forall n :: n in names <==> exists k :: k in keys && k in p.lines && p.lines[k].visible && n == ColumnOf(k)
    decreases |keys|
  {
    if keys == [] then []
    else
      var k := keys[0];
      var here := if k in p.lines && p.lines[k].visible then [ColumnOf(k)] else [];
      assert forall x :: x in keys <==> x == k || x in keys[1..];
      here + ShownColumns(p, keys[1..])
  }

  /** Label used when the shown lines belong to more than one column ("value"). */
  const GenericLabel: string := "값"

  /**
   The y-axis label: the single column name when the shown lines share one column, the
   generic label otherwise.
   */
  function YLabel(p: Plot): (name: string)
    requires WellFormed(p)
    ensures |VisibleColumns(p)| == 1 ==> VisibleColumns(p) == {name}
    ensures |VisibleColumns(p)| != 1 ==> name == GenericLabel
  {
    var names := Unique(ShownColumns(p, p.order));
    assert Elements(names) == VisibleColumns(p);
    DistinctCardinality(names);
    if |names| == 1 then
      assert Elements(names) == {names[0]};
      names[0]
    else GenericLabel
  }

  /** The axis state the viewer sets: limits (`None` while autoscaled) and the y label. */
  datatype Axis = Axis(limits: Option<Limits>, title: Option<string>)

  /**
   `update_y_axis_range`: with no lines, or no shown data, the axis is left as it was;
   otherwise the limits are the margin-widened range of the shown values, so they enclose
   every one of them, and the label names the shown column.
   */
  function Recompute(axis: Axis, p: Plot): (r: Axis)
    requires WellFormed(p)
    ensures !ShowsData(p) ==> r == axis
    ensures ShowsData(p) ==> r.limits.Some? && r.limits.value.low < r.limits.value.high
    ensures ShowsData(p) ==> r.limits.Some? && Encloses(r.limits.value, p)
    ensures ShowsData(p) ==> VisibleValues(p) != [] && r.limits == Some(Fit(VisibleValues(p)))
    ensures ShowsData(p) && |VisibleColumns(p)| == 1 ==> r.title.Some? && VisibleColumns(p) == {r.title.value}
    ensures ShowsData(p) && |VisibleColumns(p)| != 1 ==> r.title == Some(GenericLabel)
  {
    if p.lines == map[] then axis
    else
      var data := VisibleValues(p);
      VisibleValuesComplete(p);
      if data == [] then axis
      else
        var b := Fit(data);
        forall k, x | k in p.lines && p.lines[k].visible && x in p.lines[k].ys
          ensures b.low < x < b.high
        {
          assert x in data;
        }
        Axis(Some(b), Some(YLabel(p)))
  }
}
