/**
 Which sheet columns become line series, and which of them starts visible.

 The viewer reads the sheet's columns by position: position 0 is the x axis, positions 1 and
 2 form the group, and positions 3, 4, 5 and 6 (those that exist) are the series columns.
 */
module Columns {
  import opened Common
  import opened Text

  /** First and one-past-last position of the series columns (`y_cols = [3, 4, 5, 6]`). */
  const FirstSlot: nat := 3
  const EndSlot: nat := 7

  /** Column name the viewer prefers as the initially shown series ("number of file uploads"). */
  const UploadLabel: string := "파일 업로드 수"

  /** Name of the helper column the viewer adds to the table to hold each row's group. */
  const HelperColumn: string := "group"

  predicate IsSlot(p: int) {
    FirstSlot <= p < EndSlot
  }

  /** The preferred-column test: the Korean label occurs, or "upload" occurs ignoring ASCII case. */
  predicate IsUploadName(name: string) {
    Contains(name, UploadLabel) || Contains(Lower(name), "upload")
  }

  /** The first existing series column from position `p` on whose name passes the upload test. */
  function FirstUploadFrom(columns: seq<string>, p: nat): (r: Option<nat>)
    requires FirstSlot <= p <= EndSlot
    ensures r.Some? ==> p <= r.value < EndSlot && r.value < |columns| && IsUploadName(columns[r.value])
    ensures r.Some? ==> forall q :: p <= q < r.value ==> !IsUploadName(columns[q])
    ensures r.None? ==> forall q :: p <= q < EndSlot && q < |columns| ==> !IsUploadName(columns[q])
    decreases EndSlot - p
  {
    if p == EndSlot || |columns| <= p then None
    else if IsUploadName(columns[p]) then Some(p)
    else FirstUploadFrom(columns, p + 1)
  }

  /**
   The initially visible series column: the first series position whose name passes the
   upload test, else position 3 when it exists, else none.
   */
  function DefaultColumn(columns: seq<string>): (r: Option<nat>)
    ensures r.Some? ==> IsSlot(r.value) && r.value < |columns|
    ensures r.None? <==> |columns| <= FirstSlot
    ensures (exists p :: IsSlot(p) && p < |columns| && IsUploadName(columns[p])) ==>
              r.Some? && IsUploadName(columns[r.value])
              && forall q :: FirstSlot <= q < r.value ==> !IsUploadName(columns[q])
    ensures (forall p :: IsSlot(p) && p < |columns| ==> !IsUploadName(columns[p])) ==>
              r == (if FirstSlot < |columns| then Some(FirstSlot) else None)
  {
    match FirstUploadFrom(columns, FirstSlot)
    case Some(p) => Some(p)
    case None => if FirstSlot < |columns| then Some(FirstSlot) else None
  }

  /** The series positions that exist in a table with these columns, in increasing order. */
  function SeriesPositions(columns: seq<string>): (ps: seq<nat>)
    ensures forall p :: p in ps <==> IsSlot(p) && p < |columns|
    ensures forall i, j :: 0 <= i < j < |ps| ==> ps[i] < ps[j]
    ensures forall i :: 0 <= i < |ps| ==> ps[i] == FirstSlot + i
  {
    var n := if |columns| <= FirstSlot then 0
             else if |columns| >= EndSlot then EndSlot - FirstSlot
             else |columns| - FirstSlot;
    var ps := seq(n, i requires 0 <= i < n => FirstSlot + i);
    assert forall p :: IsSlot(p) && p < |columns| ==> ps[p - FirstSlot] == p;
    ps
  }

  /**
   The names of the series columns, read from the sheet as loaded. This is the intended
   reading of the viewer's series selection and the one the rest of the model uses.
   */
  function SeriesColumns(columns: seq<string>): (names: seq<string>)
    ensures |names| == |SeriesPositions(columns)|
    ensures forall i :: 0 <= i < |names| ==> names[i] == columns[FirstSlot + i]
    ensures forall n :: n in names <==> exists p :: IsSlot(p) && p < |columns| && columns[p] == n
  {
    var ps := SeriesPositions(columns);
    var names := seq(|ps|, i requires 0 <= i < |ps| => columns[ps[i]]);
    assert forall p :: IsSlot(p) && p < |columns| ==> columns[p] == names[p - FirstSlot];
    names
  }

  /**
   The viewer as written: the helper column `group` is appended to the table (unless a column
   of that name exists) before the series are chosen, and the series test compares positions
   against the widened column list.
   */
  function WithHelperColumn(columns: seq<string>): (widened: seq<string>)
    ensures columns <= widened && |widened| <= |columns| + 1
    ensures HelperColumn in widened
    ensures HelperColumn in columns ==> widened == columns
  {
    if HelperColumn in columns then columns else columns + [HelperColumn]
  }

  function SeriesColumnsAsWritten(columns: seq<string>): seq<string> {
    SeriesColumns(WithHelperColumn(columns))
  }

  /**
   A sheet with between three and six columns gets a series (and a checkbox) for the helper
   column `group`, whose cells are text, although `group` is not one of its columns.
   */
  lemma HelperColumnBecomesSeries(columns: seq<string>)
    requires FirstSlot <= |columns| < EndSlot && HelperColumn !in columns
    ensures HelperColumn in SeriesColumnsAsWritten(columns)
    ensures HelperColumn !in SeriesColumns(columns)
  {
    var widened := WithHelperColumn(columns);
    assert widened[|columns|] == HelperColumn;
    assert SeriesColumns(widened)[|columns| - FirstSlot] == HelperColumn;
  }

  /** Concrete instance: a four-column sheet gets the series `uploads` and `group`. */
  lemma FourColumnSheet()
    ensures SeriesColumnsAsWritten(["date", "team", "member", "uploads"]) == ["uploads", "group"]
    ensures SeriesColumns(["date", "team", "member", "uploads"]) == ["uploads"]
  {
    var columns := ["date", "team", "member", "uploads"];
    assert HelperColumn !in columns by {
      assert columns[0][0] != 'g' && columns[1][0] != 'g' && columns[2][0] != 'g';
      assert columns[3][0] != 'g';
    }
    var widened := WithHelperColumn(columns);
    assert widened == columns + [HelperColumn];
    assert |SeriesColumns(widened)| == 2;
    assert |SeriesColumns(columns)| == 1;
  }

  /** With seven or more columns the helper column falls outside the series positions. */
  lemma WideSheetUnaffected(columns: seq<string>)
    requires |columns| >= EndSlot
    ensures SeriesColumnsAsWritten(columns) == SeriesColumns(columns)
  {
    var widened := WithHelperColumn(columns);
    assert |SeriesColumns(widened)| == |SeriesColumns(columns)|;
    forall i | 0 <= i < |SeriesColumns(columns)|
      ensures SeriesColumns(widened)[i] == SeriesColumns(columns)[i]
    {
      assert widened[FirstSlot + i] == columns[FirstSlot + i];
    }
  }
}
