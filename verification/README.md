# Excel chart viewer: series visibility and y-axis fitting

This project is a Dafny model of the core of `ExcelChartViewer` in `excel_chart.py`, together with proofs about it. The viewer reads a sheet and draws one line per (group, value column) pair. The group is the text of the sheet's second and third cells joined by `" - "`. The value columns are the sheet's positions 3 to 6. The code as written also counts the helper column it appends (see "## Findings"); the model uses the sheet's own columns. The viewer then lets the user show and hide lines through two checkbox panels, one per value column and one per group, and refits the y axis after every click.

The state the model keeps is the one the viewer keeps:

- `lines`: series key → line, where a `Line` holds the y values and whether the line is shown;
- `visibility`: series key → shown flag;
- the dictionaries' insertion order of keys.

Every key is `group + "_" + column`. The code recovers a key's group by cutting it at the first `_`. It recovers the column as the text after that `_`. A column checkbox selects lines by the substring test `"_" + name in key`. The model states these string operations exactly, quirks included:

- a box whose name is a prefix of another column's name also toggles that column's lines;
- a box also toggles the lines of any column whose name holds `_` followed by the box's name, so the box `upload` toggles the column `file_upload`;
- a `_` inside a group cell makes the key split in the wrong place.

Files:

- `common.dfy`: `Option`, `Result`, distinctness, and the order-preserving de-duplication behind `Series.unique` and dictionary key order.
- `text.dfy`: substring containment, ASCII lower-casing, and cutting a string at the first occurrence of a character.
- `series_keys.dfy`: group names and keys, splitting keys back into group and column, and the column checkbox test.
- `columns.dfy`: the default column, the value-column positions, and the helper-column finding.
- `axis_range.dfy`: min, max, margin, and the fitted limits.
- `plotting.dfy`: the line state, adding lines, the toggle both callbacks use, the shown values, the y label, and the axis update.
- `legend.dfy`: the checkbox panels and the `group_lines` index.
- `chart_viewer.dfy`: building the chart from a sheet, the two callbacks, clicks on boxes, and the properties of a freshly built chart.

## Model

| member | source | states |
|---|---|---|
| `Columns.FirstUploadFrom` | excel_chart.py:53-58 | the first existing value position whose name contains the Korean upload label or, lower-cased, `upload`; none such before it; none at all when it returns nothing |
| `Columns.DefaultColumn` | excel_chart.py:52-61 | the default column is a value position inside the sheet; it is absent exactly when the sheet has no fourth column; if some value column passes the upload test, the first such is chosen; otherwise position 3 is chosen when it exists |
| `Columns.SeriesPositions` | excel_chart.py:89-90 | the plotted positions are exactly the positions 3 to 6 that exist in the sheet, in increasing order |
| `Columns.SeriesColumns` | excel_chart.py:145-148 | the value-column names are the sheet's names at positions 3, 4, ... in order; a name is among them exactly when it sits at an existing value position of the sheet |
| `Columns.WithHelperColumn` | excel_chart.py:69 | adding the helper column `group` keeps the sheet's columns as a prefix and makes `group` a column; when the sheet already has a `group` column the columns are unchanged, otherwise `group` is the one column added |
| `Columns.HelperColumnBecomesSeries` | excel_chart.py:69-91 | on a sheet with 3 to 6 columns and no `group` column, the code as written plots `group` as a value column, though the sheet's own value columns do not include it |
| `Columns.FourColumnSheet` | excel_chart.py:69-91 | a four-column sheet gets the value columns `uploads` and `group` as written, and only `uploads` as intended |
| `Columns.WideSheetUnaffected` | excel_chart.py:89-91 | with seven or more columns the helper column falls outside positions 3 to 6, so the code as written and the intended reading agree |
| `SeriesKeys.KeySplitsBack` | excel_chart.py:181-247 | cutting a key at its first `_` gives back its group, and the text after that `_` gives back its column, each exactly when the group contains no `_` |
| `SeriesKeys.GroupNameUnderscore` | excel_chart.py:69 | a group name contains `_` exactly when one of its two cells does |
| `SeriesKeys.KeyInjective` | excel_chart.py:102 | with `_`-free groups, different (group, column) pairs get different keys |
| `SeriesKeys.ColumnMatchIff` | excel_chart.py:160 | with a `_`-free group, the checkbox for `name` selects a key exactly when `name` is a prefix of the key's column or `"_" + name` occurs inside the column's name; the group text plays no part |
| `SeriesKeys.ColumnMatchIsPrefix` | excel_chart.py:160 | with `_`-free group and column, the checkbox for `name` selects a key exactly when `name` is a prefix of the key's column |
| `SeriesKeys.OwnColumnMatches` | excel_chart.py:160 | every line is selected by its own column's checkbox |
| `SeriesKeys.GroupTextMatches` | excel_chart.py:160 | a group whose text contains `"_" + name` has all its lines selected by the checkbox `name`, whatever their column |
| `SeriesKeys.PrefixLabelOverMatches` | excel_chart.py:160 | the checkbox `A` toggles the line of column `AB` but not that of column `B` |
| `SeriesKeys.UnderscoreColumnOverMatches` | excel_chart.py:160 | the checkbox `upload` toggles the line of column `file_upload`, though `upload` is not a prefix of that name |
| `SeriesKeys.UnderscoreGroupSplitsWrongly` | excel_chart.py:181 | the group `team_a - Mon` is filed under the label `team`, and its column reads as `a - Mon_uploads` |
| `AxisRange.Min` | excel_chart.py:228 | the minimum is one of the values and no value is below it |
| `AxisRange.Max` | excel_chart.py:229 | the maximum is one of the values and no value is above it |
| `AxisRange.Margin` | excel_chart.py:232-234 | the margin is always positive |
| `AxisRange.Fit` | excel_chart.py:228-237 | the limits are ordered and every value lies strictly inside them; they are centred on the data's midpoint; the width is 1.2 times the spread, or 0.2 times the magnitude of a constant nonzero value, or exactly [-1, 1] for all zeros |
| `AxisRange.SpreadExample` | excel_chart.py:232-237 | the values 2, 4, 6 give the limits [1.6, 6.4] |
| `AxisRange.FlatExample` | excel_chart.py:233-237 | the values 5, 5, 5 give the limits [4.5, 5.5] |
| `Plotting.Add` | excel_chart.py:102-103 | storing a line keeps the key order duplicate-free and the record in step; the key holds the new line; other keys keep theirs; a new key is appended at the end |
| `Plotting.AddAll` | excel_chart.py:85-104 | storing a list of lines keeps both invariants; the keys afterwards are the old ones plus the list's; each stored line is an old one or one from the list |
| `Plotting.AddAllStoresEach` | excel_chart.py:102-103 | when the list's keys are all different, each key holds its own line |
| `Plotting.AddAllAppends` | excel_chart.py:102-103 | when the list's keys are all different and new, they are appended in list order |
| `Plotting.AddAllKeepsOthers` | excel_chart.py:102-103 | a key the list does not name keeps its line |
| `Plotting.Toggle` | excel_chart.py:159-166 | keys, their order and the y values are unchanged; a line changes its shown flag exactly when it is a selected candidate; the record of each flipped line equals its new flag, and the record of every other key is unchanged |
| `Plotting.ToggleKeepsSync` | excel_chart.py:161-166 | toggling keeps the visibility record equal to the lines' shown flags |
| `Plotting.ToggleTwiceLines` | excel_chart.py:159-166 | toggling the same candidates twice restores every line |
| `Plotting.ToggleTwiceRecord` | excel_chart.py:161-166 | toggling the same candidates twice restores the visibility record |
| `Plotting.ToggleTwice` | excel_chart.py:159-166 | toggling the same candidates twice restores the whole line state |
| `Plotting.Gather` | excel_chart.py:219-224 | a value is gathered exactly when it belongs to a shown line among the given keys |
| `Plotting.VisibleValuesComplete` | excel_chart.py:217-226 | the gathered values are non-empty exactly when some shown line has data, and they include every shown value |
| `Plotting.ShownColumns` | excel_chart.py:243-248 | a name is collected exactly when it is the column (text after the first `_`) of a shown line |
| `Plotting.YLabel` | excel_chart.py:250-255 | when the shown lines name a single column, the label is that column; otherwise it is `값` |
| `Plotting.Recompute` | excel_chart.py:211-255 | with no shown data the axis is left as it was; otherwise the limits are exactly `Fit` of the gathered shown values, that is [min − margin, max + margin], they enclose every shown value, and the label follows the single-column rule |
| `Legend.GroupsOfKeysMembers` | excel_chart.py:179-181 | a label occurs among the keys' labels exactly when some key carries it |
| `Legend.KeysOfGroup` | excel_chart.py:182-184 | the keys filed under a label are exactly the keys that carry it, without repeats |
| `Legend.FileKeyIndexes` | excel_chart.py:181-184 | filing one more key keeps the labels in first-appearance order and each label's list exact |
| `Legend.IndexGroups` | excel_chart.py:178-186 | the labels are the keys' group labels in first-appearance order; each label, and only a label, has a list, and the list holds exactly its keys in key order |
| `Legend.IndexPartitionsKeys` | excel_chart.py:178-186 | every key is filed under its own label and under no other; the labels are all different |
| `ChartViewer.Groups` | excel_chart.py:72 | the groups are all different, they are exactly the row groups that occur, and they are listed in the order of their first row |
| `ChartViewer.SeriesData` | excel_chart.py:86-97 | a group's line for a column holds exactly the values of that column in the group's rows; it is non-empty when the group has a row |
| `ChartViewer.AllEntries` | excel_chart.py:85-104 | there is one line per (group, value column) pair, and no other |
| `ChartViewer.StartAxis` | excel_chart.py:108-109 | before the first refit the axis has no limits; it has a label exactly when the sheet has a fourth column, and that label is the default column's name |
| `ChartViewer.Build` | excel_chart.py:85-104 | the built line state has a duplicate-free key order and a record in step with the lines |
| `ChartViewer.BuildKeys` | excel_chart.py:85-104 | the built lines are keyed by exactly the (group, value column) pairs, value columns read from the sheet's own columns as in the corrected series selection under Findings |
| `ChartViewer.BuildEmpty` | excel_chart.py:85-104 | no line is built exactly when the sheet has no row or none of its own columns sits at positions 3 to 6 (corrected series selection) |
| `ChartViewer.CreatedOrder` | excel_chart.py:85-104 | with `_`-free group cells and distinct value-column names, keys are added group by group in column order, one per pair |
| `ChartViewer.CreatedLines` | excel_chart.py:85-103 | on such sheets each pair's line holds the group's values of that column and is shown exactly when the column is the default |
| `ChartViewer.InitialVisibility` | excel_chart.py:95-103 | on such sheets a line starts shown exactly when the column its key names is the default column |
| `ChartViewer.InitialColumnBoxes` | excel_chart.py:145-151 | on such sheets with a row, a column box starts ticked exactly when its name selects the default column: it is a prefix of the default column's name, or follows a `_` inside it |
| `ChartViewer.GroupLabels` | excel_chart.py:178-187 | on sheets with a value column and `_`-free group cells, the group panel has a label for exactly each row group |
| `ChartViewer.RecomputeSettles` | excel_chart.py:226-255 | once some shown line has data, the refitted axis does not depend on the previous axis |
| `ChartViewer.Assemble` | excel_chart.py:124-190 | after the refit and the panels are built, the viewer invariant holds; with no lines both panels are empty; otherwise the column panel lists the value columns and the group labels are the keys' labels; all group boxes are ticked |
| `ChartViewer.CreateChart` | excel_chart.py:37-127 | fails exactly when the sheet has fewer than three columns; otherwise the viewer invariant holds, the lines are keyed by exactly the (group, value column) pairs of the corrected series selection under Findings, the column panel lists the value columns, every group box is ticked, and with no shown data the axis keeps the default column's label |
| `ChartViewer.OnColumnToggled` | excel_chart.py:156-170 | exactly the lines whose keys contain `"_" + name` change their shown flag; keys, order, values and both panels are unchanged; the invariant is kept |
| `ChartViewer.GroupMembers` | excel_chart.py:182-195 | the keys filed under a label are all different and are exactly the lines whose group label it is |
| `ChartViewer.OnGroupToggled` | excel_chart.py:192-207 | exactly the lines whose group label is `name` change their shown flag; everything else is unchanged; the invariant is kept |
| `ChartViewer.ClickColumnBox` | excel_chart.py:156-172 | a click flips the box's tick and the shown flag of exactly the lines the box's name selects; the other boxes, the group panel and index, the key order and every line's values are unchanged; when no data is shown afterwards, the axis is unchanged |
| `ChartViewer.ClickGroupBox` | excel_chart.py:192-209 | a click flips the box's tick and the shown flag of exactly the lines of the box's group; the other boxes, the column panel, the index, the key order and every line's values are unchanged; when no data is shown afterwards, the axis is unchanged |
| `ChartViewer.ColumnClickTwice` | excel_chart.py:159-166 | clicking a column box twice restores the lines and the panel, and the whole viewer when data is shown |
| `ChartViewer.GroupClickTwice` | excel_chart.py:195-203 | clicking a group box twice restores the lines and the panel, and the whole viewer when data is shown |
| `ChartViewer.BothBoxesClicked` | excel_chart.py:159-203 | the panels flip lines independently: a line whose column box and group box are both clicked ends as it started, while both boxes have changed their tick |
| `ChartViewer.EntryKeysDistinct` | excel_chart.py:102 | with `_`-free distinct groups and distinct value-column names, no two lines get the same key |

## Left out

- Loading the sheet with `pd.read_excel` and its error path (excel_chart.py:23-35), and the `df is None` guard (excel_chart.py:39-41). The model starts from a loaded `Table`.
- Rendering: the figure, colours, markers, the x label, the title text, the grid, widget placement, `tight_layout`, `draw` and `show`. The x values of each line are not kept, only its y values.
- ChartViewer.ClickGroupBox: assumes, like `ChartViewer.ClickColumnBox`, that every click reaches its callback; see the next line.
- ChartViewer.ClickColumnBox: assumes every click reaches its callback. The source keeps the two `CheckButtons` widgets only in the locals `y_check` and `group_check` (excel_chart.py:154, 190). Matplotlib holds a widget's click handlers only weakly, so once `create_legend_checkboxes` returns, the widgets may be collected and clicks may stop reaching `y_checkbox_callback` and `group_checkbox_callback`. The model does not cover that case.
- The check-box widget itself. `Legend.Tick` stands in for what a click does to a box before the callback runs.
- `save_chart`, `select_file` and `main`, and all of `app.py` (web routes, CSV append, e-mail). These are I/O.
- Floating point and cell types. Every value cell is assumed to be a number: `Row.values` holds exact reals, so the 10% margin is exactly one tenth of the spread. Rounding, NaN and infinite cells are not modelled. Neither are text cells, nor date cells mixed with numbers, which make `min` at excel_chart.py:228 or the subtraction at excel_chart.py:232 raise. A shown column of dates alone would be fitted in date units, and that is not modelled either.
- Cell formatting. `Row.first` and `Row.second` are the text `str()` gives for a cell. Non-text column names, on which the default-column test would raise, are not modelled.
- Lower-casing covers only `A`-`Z`. For the test against `upload` this agrees with Python's Unicode `lower`, because no other character lower-cases into those letters.
- A sheet that already has a column named `group`. Line 69 would overwrite that column's cells with the group text. The model plots the sheet's own values.
- Duplicate keys, which can occur when a group cell holds `_`. The model keeps the dictionary's behaviour: first position, last line. The earlier line would stay drawn and out of the panels' reach; that is not modelled.
- An unknown label in the group callback, which would raise `KeyError`. It cannot arise from a click, because every group box's name is a label of the index; `ChartViewer.OnGroupToggled` requires this.
- ChartViewer.CreateChart: follows the corrected series selection `Columns.SeriesColumns` from "## Findings", not the code as written. On a sheet with 3 to 6 columns, excel_chart.py:69-104 also adds one hidden `group` line per group, holding text, and excel_chart.py:145-151 adds a `group` box. Neither is modelled. The as-written selection is stated only for column names, by `Columns.SeriesColumnsAsWritten`.
- ChartViewer.Build: the same corrected selection as `ChartViewer.CreateChart`; no `group` lines.
- ChartViewer.BuildKeys: its key set is that of the corrected selection, without the `group` keys.
- ChartViewer.BuildEmpty: under the code as written, a 3-column sheet with rows gets `group` lines; the model builds none.
- Fewer than three columns makes the lookups at excel_chart.py:64-66 raise. This is modelled as `Err(MissingKeyColumns)`, not as an exception.

## Findings

| source | as written | input that shows it | evidently intended | confidence | as-written member | corrected member |
|---|---|---|---|---|---|---|
| excel_chart.py:69-148 | the helper column `group` is added to the table before lines 90 and 146 compare value positions with the column count, so the widened count is used | a sheet with columns `date, team, member, uploads`: position 4 now exists and holds `group`, which gets a line per group and a checkbox | only the sheet's own columns at positions 3 to 6 are value columns | not executed | `Columns.FourColumnSheet` | `Columns.SeriesColumns` |
