/**
 Series keys. Every plotted line is stored under the key `group + "_" + column`. The group
 is the text `str(first) + " - " + str(second)` built from the sheet's second and third
 columns. The viewer later recovers the group by cutting the key at its first `_`, and the
 column by taking what follows that `_`. The column checkboxes select keys by the
 substring test `"_" + name in key`.
 */
module SeriesKeys {
  import opened Text

  const Sep: char := '_'

  /** The group name of a row: `str(col1) + ' - ' + str(col2)`. */
  function GroupName(first: string, second: string): string {
    first + " - " + second
  }

  /** The key of the line for `column` within `group`. */
  function Key(group: string, column: string): string {
    group + [Sep] + column
  }

  /** `key.split('_')[0]`: the group a key is filed under in the group checkbox index. */
  function GroupOf(key: string): string {
    Before(key, Sep)
  }

  /** `key.split('_', 1)[1] if '_' in key else key`: the column a key names in the y-axis label. */
  function ColumnOf(key: string): string {
    After(key, Sep)
  }

  /** The column checkbox test for `name`: `'_' + name` occurs in the key. */
  predicate ColumnMatches(key: string, name: string) {
    Contains(key, [Sep] + name)
  }

  /** The only separator in the key of an underscore-free group is the one the key adds. */
  lemma OnlySeparator(group: string, column: string, i: int)
    requires Sep !in group && Sep !in column
    requires 0 <= i < |Key(group, column)| && Key(group, column)[i] == Sep
    ensures i == |group|
  {
    var k := Key(group, column);
    assert forall j :: 0 <= j < |group| ==> k[j] == group[j];
    assert forall j :: |group| < j < |k| ==> k[j] == column[j - |group| - 1];
  }

  /**
   Splitting a key at its first `_` gives back its group and its column exactly when the
   group contains no `_`; the column may contain `_` freely.
   */
  lemma KeySplitsBack(group: string, column: string)
    ensures GroupOf(Key(group, column)) == group <==> Sep !in group
    ensures ColumnOf(Key(group, column)) == column <==> Sep !in group
  {
    var k := Key(group, column);
    assert k[|group|] == Sep;
    var b := GroupOf(k);
    var a := ColumnOf(k);
    assert k == b + [Sep] + a;
    assert b == k[..|b|];
    if Sep !in group {
      assert forall j :: 0 <= j < |group| ==> k[j] == group[j];
      assert forall j :: 0 <= j < |b| ==> b[j] == k[j];
      assert b == group;
      assert a == k[|group| + 1..];
    } else {
      var j :| 0 <= j < |group| && group[j] == Sep;
      assert forall i :: 0 <= i < |b| ==> b[i] == k[i];
      assert k[j] == Sep;
      assert |b| < |group|;
      assert |a| > |column|;
    }
  }

  /** A group built from two underscore-free cells is itself underscore-free. */
  lemma GroupNameUnderscore(first: string, second: string)
    ensures Sep in GroupName(first, second) <==> Sep in first || Sep in second
  {
    var g := GroupName(first, second);
    if Sep in g {
      var i :| 0 <= i < |g| && g[i] == Sep;
      if i < |first| {
        assert first[i] == Sep;
      } else if i >= |first| + 3 {
        assert second[i - |first| - 3] == Sep;
      }
    }
    if Sep in first {
      var i :| 0 <= i < |first| && first[i] == Sep;
      assert g[i] == Sep;
    }
    if Sep in second {
      var i :| 0 <= i < |second| && second[i] == Sep;
      assert g[|first| + 3 + i] == Sep;
    }
  }

  /** Under underscore-free groups, distinct (group, column) pairs give distinct keys. */
  lemma KeyInjective(g1: string, c1: string, g2: string, c2: string)
    requires Sep !in g1 && Sep !in g2
    requires Key(g1, c1) == Key(g2, c2)
    ensures g1 == g2 && c1 == c2
  {
    KeySplitsBack(g1, c1);
    KeySplitsBack(g2, c2);
  }

  /**
   The checkbox test read on the column alone: `name` selects the lines of `column` when it
   is a prefix of the column's name, or when `"_" + name` occurs inside the column's name.
   */
  predicate Selects(column: string, name: string) {
    name <= column || Contains(column, [Sep] + name)
  }

  /**
   With an underscore-free group, the checkbox for `name` selects a key exactly when it
   selects the key's column: the group text plays no part, and a column name holding `_`
   can be matched in its middle.
   */
  lemma ColumnMatchIff(group: string, column: string, name: string)
    requires Sep !in group
    ensures ColumnMatches(Key(group, column), name) <==> Selects(column, name)
  {
    var k := Key(group, column);
    var pat := [Sep] + name;
    ContainsIffOccurs(k, pat);
    ContainsIffOccurs(column, pat);
    if ColumnMatches(k, name) {
      var i :| OccursAt(k, pat, i);
      MatchLandsInColumn(group, column, name, i);
    }
    if name <= column {
      assert k[|group|..|group| + |pat|] == pat;
      assert OccursAt(k, pat, |group|);
    }
    if Contains(column, pat) {
      var j :| OccursAt(column, pat, j);
      ColumnOccurrenceInKey(group, column, pat, j);
    }
  }

  /** An occurrence of `"_" + name` in the key of an underscore-free group lies at or after its separator. */
  lemma MatchLandsInColumn(group: string, column: string, name: string, i: int)
    requires Sep !in group && OccursAt(Key(group, column), [Sep] + name, i)
    ensures i >= |group|
    ensures i == |group| ==> name <= column
    ensures i > |group| ==> OccursAt(column, [Sep] + name, i - |group| - 1)
  {
    var k := Key(group, column);
    var pat := [Sep] + name;
    assert k[i] == pat[0] == Sep;
    assert forall j :: 0 <= j < |group| ==> k[j] == group[j];
    if i == |group| {
      assert k[i + 1..i + |pat|] == name;
      assert column[..|name|] == k[i + 1..i + |pat|];
    } else if i > |group| {
      var j := i - |group| - 1;
      assert column[j..j + |pat|] == k[i..i + |pat|];
    }
  }

  /** An occurrence inside the column is an occurrence inside the key. */
  lemma ColumnOccurrenceInKey(group: string, column: string, part: string, j: int)
    requires OccursAt(column, part, j)
    ensures OccursAt(Key(group, column), part, |group| + 1 + j)
  {
    var k := Key(group, column);
    var i := |group| + 1 + j;
    assert k[i..i + |part|] == column[j..j + |part|];
  }

  /**
   With an underscore-free group and column, the checkbox for `name` selects the key
   exactly when `name` is a prefix of the column: a name that is a prefix of another
   column's name selects that column's lines as well.
   */
  lemma ColumnMatchIsPrefix(group: string, column: string, name: string)
    requires Sep !in group && Sep !in column
    ensures ColumnMatches(Key(group, column), name) <==> name <= column
  {
    var k := Key(group, column);
    var pat := [Sep] + name;
    ContainsIffOccurs(k, pat);
    if ColumnMatches(k, name) {
      var i :| OccursAt(k, pat, i);
      assert k[i] == pat[0] == Sep;
      OnlySeparator(group, column, i);
      assert k[i + 1..i + |pat|] == name;
      assert column[..|name|] == k[i + 1..i + |pat|];
    }
    if name <= column {
      assert k[|group|..|group| + |pat|] == pat;
      assert OccursAt(k, pat, |group|);
    }
  }

  /** Every line is selected by its own column's checkbox. */
  lemma OwnColumnMatches(group: string, column: string)
    ensures ColumnMatches(Key(group, column), column)
  {
    var k := Key(group, column);
    var pat := [Sep] + column;
    assert k[|group|..|group| + |pat|] == pat;
    assert OccursAt(k, pat, |group|);
    ContainsIffOccurs(k, pat);
  }

  /**
   A group whose text contains `"_" + name` has every one of its lines selected by the
   column checkbox `name`, whatever the line's column.
   */
  lemma GroupTextMatches(group: string, column: string, name: string)
    requires Contains(group, [Sep] + name)
    ensures ColumnMatches(Key(group, column), name)
  {
    assert Key(group, column) == group + ([Sep] + column);
    ContainsInPrefix(group, [Sep] + column, [Sep] + name);
  }

  /** Concrete instance: the checkbox "A" also toggles the lines of column "AB". */
  lemma PrefixLabelOverMatches()
    ensures ColumnMatches(Key("Seoul - Mon", "AB"), "A")
    ensures !ColumnMatches(Key("Seoul - Mon", "B"), "A")
  {
    assert Sep !in "Seoul - Mon" && Sep !in "AB" && Sep !in "B";
    ColumnMatchIsPrefix("Seoul - Mon", "AB", "A");
    ColumnMatchIsPrefix("Seoul - Mon", "B", "A");
    assert "A"[0] != "B"[0];
  }

  /**
   Concrete instance: the checkbox "upload" also toggles the lines of column "file_upload",
   though it is not a prefix of that name, because "_upload" occurs inside it.
   */
  lemma UnderscoreColumnOverMatches()
    ensures ColumnMatches(Key("Seoul - Mon", "file_upload"), "upload")
    ensures !("upload" <= "file_upload")
  {
    var column := "file_upload";
    assert column == Key("file", "upload");
    OwnColumnMatches("file", "upload");
    assert Selects(column, "upload");
    assert Sep !in "Seoul - Mon";
    ColumnMatchIff("Seoul - Mon", column, "upload");
    assert "upload"[0] != column[0];
  }

  /** Concrete instance: a group cell holding `_` is cut short, and its column absorbs the rest. */
  lemma UnderscoreGroupSplitsWrongly()
    ensures GroupOf(Key(GroupName("team_a", "Mon"), "uploads")) == "team"
    ensures ColumnOf(Key(GroupName("team_a", "Mon"), "uploads")) == "a - Mon_uploads"
  {
    var k := Key(GroupName("team_a", "Mon"), "uploads");
    assert k == "team" + [Sep] + "a - Mon_uploads";
    assert k[4] == Sep;
    assert Sep !in "team";
    var b := GroupOf(k);
    assert k == b + [Sep] + ColumnOf(k);
    assert forall j :: 0 <= j < 4 ==> k[j] != Sep;
    assert forall j :: 0 <= j < |b| ==> b[j] == k[j];
  }
}
