/**
 The two checkbox panels of the viewer. The column panel has one box per series column; a
 box starts checked when some shown line's key contains `"_" + name`. The group panel has
 one box per group label, where the label is a key's text before its first `_`. Each
 group label indexes the keys filed under it, and every group box starts checked.
 */
module Legend {
  import opened Common
  import opened SeriesKeys
  import opened Plotting

  datatype CheckBox = CheckBox(name: string, checked: bool)

  /** `group_lines`: the group labels in first-appearance order, and the keys under each. */
  datatype GroupIndex = GroupIndex(labels: seq<string>, members: map<string, seq<string>>)

  const NoGroups: GroupIndex := GroupIndex([], map[])

  /** The group label of every key, in key order. */
  function GroupsOfKeys(keys: seq<string>): (gs: seq<string>)
    ensures |gs| == |keys|
    ensures forall i :: 0 <= i < |keys| ==> gs[i] == GroupOf(keys[i])
  {
    seq(|keys|, i requires 0 <= i < |keys| => GroupOf(keys[i]))
  }

  /** Reference filter: the keys whose group label is `g`, in key order. */
  function KeysOfGroup(keys: seq<string>, g: string): (r: seq<string>)
    ensures forall k :: k in r <==> k in keys && GroupOf(k) == g
    ensures Distinct(keys) ==> Distinct(r)
    decreases |keys|
  {
    if keys == [] then []
    else
      var init := keys[..|keys| - 1];
      var k := keys[|keys| - 1];
      assert keys == init + [k];
      var r := KeysOfGroup(init, g);
      assert Distinct(keys) ==> Distinct(init) && k !in init by {
        if Distinct(keys) {
          assert forall i :: 0 <= i < |init| ==> init[i] == keys[i];
        }
      }
      if GroupOf(k) == g then r + [k] else r
  }

  /** The labels of some keys are the group labels of those keys. */
  lemma GroupsOfKeysMembers(keys: seq<string>)
    ensures forall g :: g in GroupsOfKeys(keys) <==> exists k :: k in keys && GroupOf(k) == g
  {
    var gs := GroupsOfKeys(keys);
    forall g | g in gs
      ensures exists k :: k in keys && GroupOf(k) == g
    {
      var i :| 0 <= i < |gs| && gs[i] == g;
      assert keys[i] in keys;
    }
    forall k | k in keys
      ensures GroupOf(k) in gs
    {
      var i :| 0 <= i < |keys| && keys[i] == k;
      assert gs[i] == GroupOf(k);
    }
  }

  lemma GroupsOfKeysSnoc(keys: seq<string>, k: string)
    ensures GroupsOfKeys(keys + [k]) == GroupsOfKeys(keys) + [GroupOf(k)]
  {
  }

  lemma KeysOfGroupSnoc(keys: seq<string>, k: string, g: string)
    ensures KeysOfGroup(keys + [k], g) == KeysOfGroup(keys, g) + (if GroupOf(k) == g then [k] else [])
  {
    assert (keys + [k])[..|keys|] == keys;
  }

  /** A label no key carries has no keys. */
  lemma AbsentGroupIsEmpty(keys: seq<string>, g: string)
    requires g !in GroupsOfKeys(keys)
    ensures KeysOfGroup(keys, g) == []
  {
    forall x | x in keys
      ensures GroupOf(x) != g
    {
      var i :| 0 <= i < |keys| && keys[i] == x;
      assert GroupsOfKeys(keys)[i] == GroupOf(x);
    }
  }

  /** One step of the loop that fills `group_lines`: file key `k` under its group label. */
  function FileKey(gi: GroupIndex, k: string): GroupIndex {
    var g := GroupOf(k);
    if g in gi.members then GroupIndex(gi.labels, gi.members[g := gi.members[g] + [k]])
    else GroupIndex(gi.labels + [g], gi.members[g := [k]])
  }

  /** `gi` is the group index of `keys`: labels in first-appearance order, each with its keys. */
  ghost predicate Indexes(gi: GroupIndex, keys: seq<string>) {
    && gi.labels == Unique(GroupsOfKeys(keys))
    && (forall g :: g in gi.members <==> g in gi.labels)
    && forall g :: g in gi.members ==> gi.members[g] == KeysOfGroup(keys, g)
  }

  /** Filing one more key keeps the labels in first-appearance order. */
  lemma FileKeyLabels(gi: GroupIndex, keys: seq<string>, k: string)
    requires Indexes(gi, keys)
    ensures FileKey(gi, k).labels == Unique(GroupsOfKeys(keys + [k]))
  {
    GroupsOfKeysSnoc(keys, k);
    UniqueSnoc(GroupsOfKeys(keys), GroupOf(k));
  }

  /** Filing one more key keeps the key list of label `h` exact. */
  lemma FileKeyMember(gi: GroupIndex, keys: seq<string>, k: string, h: string)
    requires Indexes(gi, keys) && h in FileKey(gi, k).members
    ensures FileKey(gi, k).members[h] == KeysOfGroup(keys + [k], h)
  {
    var g := GroupOf(k);
    KeysOfGroupSnoc(keys, k, h);
    if h != g {
      assert FileKey(gi, k).members[h] == gi.members[h];
    } else if g in gi.members {
      assert FileKey(gi, k).members[h] == gi.members[g] + [k];
    } else {
      assert g !in Unique(GroupsOfKeys(keys));
      AbsentGroupIsEmpty(keys, g);
    }
  }

  /** Filing one more key keeps each label's key list exact. */
  lemma FileKeyMembers(gi: GroupIndex, keys: seq<string>, k: string)
    requires Indexes(gi, keys)
    ensures forall h :: h in FileKey(gi, k).members ==> FileKey(gi, k).members[h] == KeysOfGroup(keys + [k], h)
  {
    forall h | h in FileKey(gi, k).members
      ensures FileKey(gi, k).members[h] == KeysOfGroup(keys + [k], h)
    {
      FileKeyMember(gi, keys, k, h);
    }
  }

  /** Filing one more key keeps the index exact. */
  lemma FileKeyIndexes(gi: GroupIndex, keys: seq<string>, k: string)
    requires Indexes(gi, keys)
    ensures Indexes(FileKey(gi, k), keys + [k])
  {
    FileKeyLabels(gi, keys, k);
    FileKeyMembers(gi, keys, k);
  }

  /**
   The loop that fills `group_lines`: each key is appended to the list of its group label,
   a label being created the first time it is met.
   */
  function IndexGroups(keys: seq<string>): (gi: GroupIndex)
    ensures Indexes(gi, keys)
    decreases |keys|
  {
    if keys == [] then NoGroups
    else
      var init := keys[..|keys| - 1];
      var k := keys[|keys| - 1];
      assert keys == init + [k];
      var gi := IndexGroups(init);
      FileKeyIndexes(gi, init, k);
      FileKey(gi, k)
  }

  /** Every key is filed under exactly one group label: the text before its first `_`. */
  lemma IndexPartitionsKeys(keys: seq<string>)
    ensures forall k :: k in keys ==> GroupOf(k) in IndexGroups(keys).members
    ensures forall g, k :: g in IndexGroups(keys).members && k in keys ==>
              (k in IndexGroups(keys).members[g] <==> g == GroupOf(k))
    ensures Distinct(IndexGroups(keys).labels)
  {
    var gi := IndexGroups(keys);
    forall k | k in keys
      ensures GroupOf(k) in gi.members
    {
      var i :| 0 <= i < |keys| && keys[i] == k;
      assert GroupsOfKeys(keys)[i] == GroupOf(k);
    }
  }

  /** The names of a panel's boxes, in order. */
  function BoxNames(boxes: seq<CheckBox>): (names: seq<string>)
    ensures |names| == |boxes|
    ensures forall i :: 0 <= i < |boxes| ==> names[i] == boxes[i].name
  {
    seq(|boxes|, i requires 0 <= i < |boxes| => boxes[i].name)
  }

  /** Some line recorded as shown has a key containing `"_" + name`. */
  predicate ShownMatch(p: Plot, name: string) {
    exists k :: k in p.lines && ColumnMatches(k, name) && k in p.visibility && p.visibility[k]
  }

  /** The initial column boxes: checked when some shown line's key contains `"_" + name`. */
  function ColumnBoxes(p: Plot, names: seq<string>): (boxes: seq<CheckBox>)
    ensures |boxes| == |names|
    ensures forall i :: 0 <= i < |names| ==> boxes[i] == CheckBox(names[i], ShownMatch(p, names[i]))
  {
    seq(|names|, i requires 0 <= i < |names| => CheckBox(names[i], ShownMatch(p, names[i])))
  }

  /** The initial group boxes: one per label, all checked. */
  function GroupBoxes(gi: GroupIndex): (boxes: seq<CheckBox>)
    ensures |boxes| == |gi.labels|
    ensures forall i :: 0 <= i < |boxes| ==> boxes[i] == CheckBox(gi.labels[i], true)
  {
    seq(|gi.labels|, i requires 0 <= i < |gi.labels| => CheckBox(gi.labels[i], true))
  }

  /** The group index the legend builds for a plot; none when there are no lines. */
  function LegendGroups(p: Plot): GroupIndex {
    if p.lines == map[] then NoGroups else IndexGroups(p.order)
  }

  /** Flips the tick of box `i` (what a click does to the box itself). */
  function Tick(boxes: seq<CheckBox>, i: nat): (r: seq<CheckBox>)
    requires i < |boxes|
    ensures |r| == |boxes|
    ensures r[i].name == boxes[i].name && r[i].checked == !boxes[i].checked
    ensures forall j :: 0 <= j < |boxes| && j != i ==> r[j] == boxes[j]
  {
    boxes[i := boxes[i].(checked := !boxes[i].checked)]
  }
}
