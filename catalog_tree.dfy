/**
 * The nested catalogue of a POS profile, built from the flat rows of the
 * catalogue query (abc_pos/api/pos_item.py, build_group_tree).
 *
 * Every row names an item group, the name of its parent group, and at most
 * one item.  The builder picks a root level, collects the groups of that
 * level by name in first-seen order, attaches the items of each group and
 * recurses into each group by name.  It has no cycle guard: termination is
 * witnessed by a ghost rank on group names that decreases from parent to
 * child on the part of the data reachable from the start level.
 */
module CatalogTree {
  import opened Results

  /** One row of the catalogue query. */
  datatype Row = Row(
    groupId: string,
    groupName: string,
    parentGroup: Option<string>,
    itemCode: Option<string>,
    itemName: string,
    description: string,
    stockUom: string,
    standardRate: Option<real>,
    disabled: int)

  /** An item as it appears in a catalogue node. */
  datatype CatalogItem = CatalogItem(
    itemCode: string,
    itemName: string,
    description: string,
    stockUom: string,
    standardRate: real,
    disabled: int)

  /** A group of the catalogue with its items and nested sub-groups. */
  datatype GroupNode = GroupNode(
    groupId: string,
    groupName: string,
    parentGroup: Option<string>,
    items: seq<CatalogItem>,
    subGroups: seq<GroupNode>)

  /** Python truthiness of a parent_group value: present and non-empty. */
  predicate Truthy(p: Option<string>) {
    p.Some? && p.value != ""
  }

  /** A falsy standard rate (missing or zero) becomes 0.0. */
  function Rate(x: Option<real>): (r: real)
    ensures x.Some? && x.value != 0.0 ==> r == x.value
    ensures !(x.Some? && x.value != 0.0) ==> r == 0.0
  {
    match x
    case Some(v) => v
    case None => 0.0
  }

  function ToItem(r: Row): CatalogItem
    requires r.itemCode.Some?
  {
    CatalogItem(r.itemCode.value, r.itemName, r.description, r.stockUom, Rate(r.standardRate), r.disabled)
  }

  // ---------------------------------------------------------------------
  // Keys collected in first-seen order (the insertion order of a dict)
  // ---------------------------------------------------------------------

  /** Which dictionary a pass over the rows fills. */
  datatype Grouping =
    | ByParent                       // parent_counts: truthy parent_group values
    | ByName(level: Option<string>)  // groups_at_level: names of the rows of one level

  /** The key a row contributes under a grouping, if any. */
  function KeyOf(kind: Grouping, r: Row): Option<string> {
    match kind
    case ByParent => if Truthy(r.parentGroup) then r.parentGroup else None
    case ByName(level) => if r.parentGroup == level then Some(r.groupName) else None
  }

  /** The distinct keys of the rows, in the order in which they are first seen. */
  function FirstSeen(rows: seq<Row>, kind: Grouping): (keys: seq<string>)
    ensures forall g :: g in keys ==> exists k :: 0 <= k < |rows| && KeyOf(kind, rows[k]) == Some(g)
  {
    if rows == [] then []
    else
      var keys := FirstSeen(rows[..|rows| - 1], kind);
      var key := KeyOf(kind, rows[|rows| - 1]);
      if key.Some? && key.value !in keys then keys + [key.value] else keys
  }

  lemma {:induction false} FirstSeenMembers(rows: seq<Row>, kind: Grouping)
    ensures forall k :: 0 <= k < |rows| && KeyOf(kind, rows[k]).Some? ==> KeyOf(kind, rows[k]).value in FirstSeen(rows, kind)
  {
    if rows != [] {
      var pre := rows[..|rows| - 1];
      FirstSeenMembers(pre, kind);
      forall k | 0 <= k < |rows| - 1 && KeyOf(kind, rows[k]).Some?
        ensures KeyOf(kind, rows[k]).value in FirstSeen(rows, kind)
      {
        assert rows[k] == pre[k];
      }
    }
  }

  predicate NoDuplicates(s: seq<string>) {
    forall i, j :: 0 <= i < j < |s| ==> s[i] != s[j]
  }

  lemma {:induction false} FirstSeenDistinct(rows: seq<Row>, kind: Grouping)
    ensures NoDuplicates(FirstSeen(rows, kind))
  {
    if rows != [] {
      var kp := FirstSeen(rows[..|rows| - 1], kind);
      FirstSeenDistinct(rows[..|rows| - 1], kind);
      var keys := FirstSeen(rows, kind);
      forall i, j | 0 <= i < j < |keys|
        ensures keys[i] != keys[j]
      {
        var key := KeyOf(kind, rows[|rows| - 1]);
        if key.Some? && key.value !in kp {
          assert keys == kp + [key.value];
          if j < |kp| {
            assert kp[i] != kp[j];
          } else {
            assert keys[i] in kp;
          }
        } else {
          assert keys == kp;
          assert kp[i] != kp[j];
        }
      }
    }
  }

  /** One more row either leaves the key list alone or appends that row's
      key, which was not yet listed. */
  lemma FirstSeenGrows(rows: seq<Row>, kind: Grouping)
    requires rows != []
    ensures var kp := FirstSeen(rows[..|rows| - 1], kind);
      var keys := FirstSeen(rows, kind);
      || keys == kp
      || (var key := KeyOf(kind, rows[|rows| - 1]); key.Some? && key.value !in kp && keys == kp + [key.value])
  {
  }

  /** A key listed before another was seen before it: every row carrying
      the later key is preceded by a row carrying the earlier one. */
  lemma {:induction false} FirstSeenOrder(rows: seq<Row>, kind: Grouping, i: nat, j: nat, k: nat)
    requires i < j < |FirstSeen(rows, kind)| && k < |rows|
    requires KeyOf(kind, rows[k]) == Some(FirstSeen(rows, kind)[j])
    ensures exists k' :: 0 <= k' < k && KeyOf(kind, rows[k']) == Some(FirstSeen(rows, kind)[i])
  {
    var n := |rows|;
    var pre := rows[..n - 1];
    var kp := FirstSeen(pre, kind);
    var keys := FirstSeen(rows, kind);
    FirstSeenGrows(rows, kind);
    assert i < |kp| && keys[i] == kp[i];
    if j < |kp| {
      assert keys[j] == kp[j];
      var kj := k;
      if k == n - 1 {
        kj :| 0 <= kj < |pre| && KeyOf(kind, pre[kj]) == Some(kp[j]);
      } else {
        assert pre[k] == rows[k];
      }
      FirstSeenOrder(pre, kind, i, j, kj);
      var k' :| 0 <= k' < kj && KeyOf(kind, pre[k']) == Some(kp[i]);
      assert pre[k'] == rows[k'];
    } else {
      FirstKeyBeforeNewKey(rows, kind, i, k);
    }
  }

  /** A row whose key the earlier rows have not listed comes after the first
      row of every key they have listed. */
  lemma FirstKeyBeforeNewKey(rows: seq<Row>, kind: Grouping, i: nat, k: nat)
    requires rows != [] && i < |FirstSeen(rows[..|rows| - 1], kind)| && k < |rows|
    requires KeyOf(kind, rows[k]).Some? && KeyOf(kind, rows[k]).value !in FirstSeen(rows[..|rows| - 1], kind)
    ensures exists k' :: 0 <= k' < k && KeyOf(kind, rows[k']) == Some(FirstSeen(rows[..|rows| - 1], kind)[i])
  {
    var n := |rows|;
    var pre := rows[..n - 1];
    var kp := FirstSeen(pre, kind);
    FirstSeenMembers(pre, kind);
    assert forall m :: 0 <= m < n - 1 ==> pre[m] == rows[m];
    assert k == n - 1;
    var ki :| 0 <= ki < |pre| && KeyOf(kind, pre[ki]) == Some(kp[i]);
    assert pre[ki] == rows[ki];
  }


  // ---------------------------------------------------------------------
  // Root selection (pos_item.py:18-33)
  // ---------------------------------------------------------------------

  /** parent_counts[q]: the number of rows whose parent_group is q. */
  function ParentCount(rows: seq<Row>, q: string): nat
  {
    if rows == [] then 0
    else ParentCount(rows[..|rows| - 1], q) + (if rows[|rows| - 1].parentGroup == Some(q) then 1 else 0)
  }

  /** `max(keys, key=count)`: a left-to-right scan that replaces the best
      key only on a strictly larger count. */
  function MaxFirst(rows: seq<Row>, keys: seq<string>): (best: string)
    requires keys != []
    ensures best in keys
  {
    if |keys| == 1 then keys[0]
    else
      var b := MaxFirst(rows, keys[..|keys| - 1]);
      if ParentCount(rows, keys[|keys| - 1]) > ParentCount(rows, b) then keys[|keys| - 1] else b
  }

  /** The parent chosen for the root level when the caller gives none. */
  function RootParent(rows: seq<Row>): Option<string>
  {
    var keys := FirstSeen(rows, ByParent);
    if keys == [] then None else Some(MaxFirst(rows, keys))
  }

  /** The level the builder actually collects. */
  function Start(rows: seq<Row>, parent: Option<string>): Option<string>
  {
    if parent.None? then RootParent(rows) else parent
  }

  lemma {:induction false} MaxFirstIsMaximum(rows: seq<Row>, keys: seq<string>)
    requires keys != []
    ensures forall j :: 0 <= j < |keys| ==> ParentCount(rows, keys[j]) <= ParentCount(rows, MaxFirst(rows, keys))
  {
    var n := |keys|;
    if n > 1 {
      var pre := keys[..n - 1];
      MaxFirstIsMaximum(rows, pre);
      assert forall j :: 0 <= j < n - 1 ==> keys[j] == pre[j];
    }
  }

  /** Ties go to the earliest key: the chosen key occurs no later than any
      key with at least its count. */
  lemma {:induction false} MaxFirstIsFirst(rows: seq<Row>, keys: seq<string>, j: nat)
    requires j < |keys| && ParentCount(rows, MaxFirst(rows, keys)) <= ParentCount(rows, keys[j])
    ensures MaxFirst(rows, keys) in keys[..j + 1]
  {
    var n := |keys|;
    if j == n - 1 {
      assert keys[..j + 1] == keys;
    } else {
      var pre := keys[..n - 1];
      assert keys[j] == pre[j];
      MaxFirstIsMaximum(rows, pre);
      var b := MaxFirst(rows, pre);
      assert MaxFirst(rows, keys) == b;
      MaxFirstIsFirst(rows, pre, j);
      assert pre[..j + 1] == keys[..j + 1];
    }
  }



  /** With no truthy parent_group in any row the root level stays None. */
  lemma RootNoneIffNoTruthyParent(rows: seq<Row>)
    ensures RootParent(rows).None? <==> forall k :: 0 <= k < |rows| ==> !Truthy(rows[k].parentGroup)
  {
    FirstSeenMembers(rows, ByParent);
    if FirstSeen(rows, ByParent) != [] {
      var q := FirstSeen(rows, ByParent)[0];
      var k :| 0 <= k < |rows| && KeyOf(ByParent, rows[k]) == Some(q);
      assert Truthy(rows[k].parentGroup);
    } else {
      forall k | 0 <= k < |rows|
        ensures !Truthy(rows[k].parentGroup)
      {
        assert KeyOf(ByParent, rows[k]).None?;
      }
    }
  }

  /** Otherwise the root level is the truthy parent_group value occurring
      in the most rows, ties going to the value seen first. */
  lemma RootIsMostFrequentParent(rows: seq<Row>, k: nat)
    requires RootParent(rows).Some?
    requires k < |rows| && Truthy(rows[k].parentGroup)
    ensures var p := RootParent(rows).value;
      && p != ""
      && (exists k' :: 0 <= k' < |rows| && rows[k'].parentGroup == Some(p))
      && ParentCount(rows, rows[k].parentGroup.value) <= ParentCount(rows, p)
      && (ParentCount(rows, rows[k].parentGroup.value) == ParentCount(rows, p) ==>
            exists k' :: 0 <= k' <= k && rows[k'].parentGroup == Some(p))
  {
    var keys := FirstSeen(rows, ByParent);
    var p := MaxFirst(rows, keys);
    FirstSeenMembers(rows, ByParent);
    MaxFirstIsMaximum(rows, keys);
    var kp :| 0 <= kp < |rows| && KeyOf(ByParent, rows[kp]) == Some(p);
    assert rows[kp].parentGroup == Some(p);
    var q := rows[k].parentGroup.value;
    assert KeyOf(ByParent, rows[k]) == Some(q);
    var j :| 0 <= j < |keys| && keys[j] == q;
    if ParentCount(rows, q) == ParentCount(rows, p) {
      MaxFirstIsFirst(rows, keys, j);
      var m :| 0 <= m <= j && keys[m] == p;
      if j == m {
        assert rows[k].parentGroup == Some(p);
      } else if j > m {
        FirstSeenOrder(rows, ByParent, m, j, k);
        var k' :| 0 <= k' < k && KeyOf(ByParent, rows[k']) == Some(keys[m]);
        assert rows[k'].parentGroup == Some(p);
      }
    }
  }

  /** The counting pass (pos_item.py:25-28): `counts` is parent_counts and
      `keys` the insertion order of its keys. */
  method CountParents(rows: seq<Row>) returns (counts: map<string, nat>, keys: seq<string>)
    ensures keys == FirstSeen(rows, ByParent)
    ensures forall q :: q in counts <==> q in keys
    ensures forall q :: q in counts ==> counts[q] == ParentCount(rows, q)
  {
    counts, keys := map[], [];
    var i := 0;
    while i < |rows|
      invariant 0 <= i <= |rows|
      invariant keys == FirstSeen(rows[..i], ByParent)
      invariant forall q :: q in counts <==> q in keys
      invariant forall q :: q in counts ==> counts[q] == ParentCount(rows[..i], q)
      invariant forall q :: q !in counts && q != "" ==> ParentCount(rows[..i], q) == 0
    {
      assert rows[..i + 1][..i] == rows[..i];
      var p := rows[i].parentGroup;
      if Truthy(p) {
        if p.value !in counts {
          keys := keys + [p.value];
          counts := counts[p.value := 1];
        } else {
          counts := counts[p.value := counts[p.value] + 1];
        }
      }
      i := i + 1;
    }
    assert rows[..|rows|] == rows;
  }

  /** Root selection (pos_item.py:18-33): count the truthy parents, then
      take the most frequent one. */
  method SelectRoot(rows: seq<Row>) returns (root: Option<string>)
    ensures root == RootParent(rows)
  {
    var counts, keys := CountParents(rows);
    if keys == [] {
      return None;
    }
    var best := MostFrequent(rows, counts, keys);
    root := Some(best);
  }

  /** `max(parent_counts, key=parent_counts.get)` (pos_item.py:32). */
  method MostFrequent(rows: seq<Row>, counts: map<string, nat>, keys: seq<string>) returns (best: string)
    requires keys != []
    requires forall q :: q in keys ==> q in counts && counts[q] == ParentCount(rows, q)
    ensures best == MaxFirst(rows, keys)
  {
    best := keys[0];
    var j := 1;
    while j < |keys|
      invariant 1 <= j <= |keys|
      invariant best == MaxFirst(rows, keys[..j])
    {
      assert keys[..j + 1][..j] == keys[..j];
      if counts[keys[j]] > counts[best] {
        best := keys[j];
      }
      j := j + 1;
    }
    assert keys[..|keys|] == keys;
  }

  // ---------------------------------------------------------------------
  // One level of the tree (pos_item.py:36-79)
  // ---------------------------------------------------------------------

  /** The group names of the rows whose parent_group is `level`, first-seen order. */
  function LevelNames(rows: seq<Row>, level: Option<string>): seq<string>
  {
    FirstSeen(rows, ByName(level))
  }

  /** The item_group_id of the first row of `level` named `g`. */
  function FirstId(rows: seq<Row>, level: Option<string>, g: string): (id: Option<string>)
    ensures id.Some? <==> g in LevelNames(rows, level)
  {
    if rows == [] then None
    else
      var earlier := FirstId(rows[..|rows| - 1], level, g);
      var r := rows[|rows| - 1];
      if earlier.Some? then earlier
      else if r.parentGroup == level && r.groupName == g then Some(r.groupId)
      else None
  }

  /** The items of the rows of `level` named `g` that carry an item code, in row order. */
  function ItemsOf(rows: seq<Row>, level: Option<string>, g: string): seq<CatalogItem>
  {
    if rows == [] then []
    else
      var r := rows[|rows| - 1];
      ItemsOf(rows[..|rows| - 1], level, g) +
        (if r.parentGroup == level && r.groupName == g && r.itemCode.Some? then [ToItem(r)] else [])
  }

  lemma {:induction false} NoItemsOutsideLevel(rows: seq<Row>, level: Option<string>, g: string)
    requires g !in LevelNames(rows, level)
    ensures ItemsOf(rows, level, g) == []
  {
    if rows != [] {
      NoItemsOutsideLevel(rows[..|rows| - 1], level, g);
    }
  }

  /** A ghost rank on group names that decreases from a parent group to each
      of its child groups, wherever the parent is ranked. */
  ghost predicate Closed(rows: seq<Row>, rank: map<string, nat>)
  {
    forall k :: 0 <= k < |rows| && rows[k].parentGroup.Some? && rows[k].parentGroup.value in rank ==>
      rows[k].groupName in rank && rank[rows[k].groupName] < rank[rows[k].parentGroup.value]
  }

  /** The groups of `level` are ranked, and so (by Closed) is everything below
      them: the name-level parent relation is acyclic from `level` down. */
  ghost predicate Ranked(rows: seq<Row>, level: Option<string>, rank: map<string, nat>)
  {
    && Closed(rows, rank)
    && forall k :: 0 <= k < |rows| && rows[k].parentGroup == level ==> rows[k].groupName in rank
  }

  lemma LevelNamesRanked(rows: seq<Row>, level: Option<string>, rank: map<string, nat>, g: string)
    requires Ranked(rows, level, rank) && g in LevelNames(rows, level)
    ensures g in rank
    ensures level.Some? && level.value in rank ==> rank[g] < rank[level.value]
  {
    var k :| 0 <= k < |rows| && KeyOf(ByName(level), rows[k]) == Some(g);
    assert rows[k].parentGroup == level;
  }

  /** The nodes build_group_tree(rows, level) returns. */
  ghost function Level(rows: seq<Row>, level: Option<string>, rank: map<string, nat>): seq<GroupNode>
    requires Ranked(rows, level, rank)
    decreases if level.Some? && level.value in rank then 0 else 1,
              if level.Some? && level.value in rank then rank[level.value] else 0,
              0
  {
    var names := LevelNames(rows, level);
    seq(|names|, i requires 0 <= i < |names| =>
      LevelNamesRanked(rows, level, rank, names[i]);
      Node(rows, level, names[i], rank))
  }

  /** The node of group `g` at `level`: id and parent from its first row, its
      items, and the level below it, looked up by name. */
  ghost function Node(rows: seq<Row>, level: Option<string>, g: string, rank: map<string, nat>): GroupNode
    requires Ranked(rows, level, rank) && g in LevelNames(rows, level) && g in rank
    decreases 0, rank[g], 1
  {
    GroupNode(FirstId(rows, level, g).value, g, level, ItemsOf(rows, level, g), Level(rows, Some(g), rank))
  }

  /** build_group_tree (pos_item.py:4-79).  The input rows are a value and
      are never modified. */
  method BuildGroupTree(rows: seq<Row>, parent: Option<string>, ghost rank: map<string, nat>)
    returns (tree: seq<GroupNode>)
    requires Ranked(rows, Start(rows, parent), rank)
    ensures tree == Level(rows, Start(rows, parent), rank)
    decreases if parent.Some? && parent.value in rank then 0 else if parent.Some? then 1 else 2,
              if parent.Some? && parent.value in rank then rank[parent.value] else 0
  {
    var level := parent;
    if level.None? {
      level := SelectRoot(rows);
    }
    var order, groupsAtLevel, itemsByGroup := CollectLevel(rows, level);
    tree := [];
    var j := 0;
    while j < |order|
      invariant 0 <= j <= |order|
      invariant |tree| == j
      invariant forall k :: 0 <= k < j ==> order[k] in rank && tree[k] == Node(rows, level, order[k], rank)
    {
      var g := order[j];
      LevelNamesRanked(rows, level, rank, g);
      assert Collected(rows, level, g, groupsAtLevel, itemsByGroup);
      var node := groupsAtLevel[g];
      var subGroups := BuildGroupTree(rows, Some(g), rank);
      node := node.(items := itemsByGroup[g], subGroups := subGroups);
      tree := tree + [node];
      j := j + 1;
    }
  }

  /** The first pass (pos_item.py:36-67): the groups of `level` by name in
      insertion order, each with its first row's id and the items of its rows. */
  method CollectLevel(rows: seq<Row>, level: Option<string>)
    returns (order: seq<string>, groupsAtLevel: map<string, GroupNode>, itemsByGroup: map<string, seq<CatalogItem>>)
    ensures order == LevelNames(rows, level)
    ensures forall g :: g in order ==> Collected(rows, level, g, groupsAtLevel, itemsByGroup)
  {
    order, groupsAtLevel, itemsByGroup := [], map[], map[];
    var i := 0;
    while i < |rows|
      invariant 0 <= i <= |rows|
      invariant order == LevelNames(rows[..i], level)
      invariant forall g :: g in groupsAtLevel <==> g in order
      invariant forall g :: g in order ==> Collected(rows[..i], level, g, groupsAtLevel, itemsByGroup)
    {
      order, groupsAtLevel, itemsByGroup := AbsorbRow(rows, i, level, order, groupsAtLevel, itemsByGroup);
      i := i + 1;
    }
    assert rows[..|rows|] == rows;
  }

  /** One iteration of the first pass: row `i` joins the groups of `level`. */
  method AbsorbRow(rows: seq<Row>, i: nat, level: Option<string>, order: seq<string>,
                   groupsAtLevel: map<string, GroupNode>, itemsByGroup: map<string, seq<CatalogItem>>)
    returns (order': seq<string>, groupsAtLevel': map<string, GroupNode>, itemsByGroup': map<string, seq<CatalogItem>>)
    requires i < |rows| && order == LevelNames(rows[..i], level)
    requires forall g :: g in groupsAtLevel <==> g in order
    requires forall g :: g in order ==> Collected(rows[..i], level, g, groupsAtLevel, itemsByGroup)
    ensures order' == LevelNames(rows[..i + 1], level)
    ensures forall g :: g in groupsAtLevel' <==> g in order'
    ensures forall g :: g in order' ==> Collected(rows[..i + 1], level, g, groupsAtLevel', itemsByGroup')
  {
    PrefixStep(rows, i, level);
    order', groupsAtLevel', itemsByGroup' := order, groupsAtLevel, itemsByGroup;
    var row := rows[i];
    if row.parentGroup == level {
      var g := row.groupName;
      if g !in groupsAtLevel' {
        groupsAtLevel' := groupsAtLevel'[g := GroupNode(row.groupId, g, row.parentGroup, [], [])];
        itemsByGroup' := itemsByGroup'[g := []];
        order' := order' + [g];
      }
      if row.itemCode.Some? {
        itemsByGroup' := itemsByGroup'[g := itemsByGroup'[g] + [ToItem(row)]];
      }
    }
    forall g | g in order'
      ensures Collected(rows[..i + 1], level, g, groupsAtLevel', itemsByGroup')
    {
      CollectedStep(rows, i, level, g, order, groupsAtLevel, itemsByGroup, groupsAtLevel', itemsByGroup');
    }
  }

  /** What the first pass has recorded for group `g` after reading `rows`. */
  ghost predicate Collected(rows: seq<Row>, level: Option<string>, g: string,
                            groupsAtLevel: map<string, GroupNode>, itemsByGroup: map<string, seq<CatalogItem>>)
  {
    && g in groupsAtLevel && g in itemsByGroup
    && FirstId(rows, level, g).Some?
    && groupsAtLevel[g] == GroupNode(FirstId(rows, level, g).value, g, level, [], [])
    && itemsByGroup[g] == ItemsOf(rows, level, g)
  }

  /** One iteration of the first pass, seen from one group `g`. */
  lemma CollectedStep(rows: seq<Row>, i: nat, level: Option<string>, g: string, before: seq<string>,
                      groupsBefore: map<string, GroupNode>, itemsBefore: map<string, seq<CatalogItem>>,
                      groupsAfter: map<string, GroupNode>, itemsAfter: map<string, seq<CatalogItem>>)
    requires i < |rows| && before == LevelNames(rows[..i], level)
    requires forall h :: h in groupsBefore <==> h in before
    requires g in before ==> Collected(rows[..i], level, g, groupsBefore, itemsBefore)
    requires var r := rows[i]; var m := r.parentGroup == level && r.groupName == g;
      && (g !in before ==> m)
      && g in groupsAfter && g in itemsAfter
      && groupsAfter[g] == (if m && g !in groupsBefore then GroupNode(r.groupId, g, r.parentGroup, [], []) else groupsBefore[g])
      && itemsAfter[g] == (if m && g !in groupsBefore then [] else itemsBefore[g]) +
                          (if m && r.itemCode.Some? then [ToItem(r)] else [])
    ensures Collected(rows[..i + 1], level, g, groupsAfter, itemsAfter)
  {
    PrefixStep(rows, i, level);
    if g !in before {
      NoItemsOutsideLevel(rows[..i], level, g);
      assert FirstId(rows[..i], level, g).None?;
      assert FirstId(rows[..i + 1], level, g) == Some(rows[i].groupId);
    } else {
      assert FirstId(rows[..i + 1], level, g) == FirstId(rows[..i], level, g);
    }
  }

  /** How LevelNames, FirstId and ItemsOf grow by one row. */
  lemma PrefixStep(rows: seq<Row>, i: nat, level: Option<string>)
    requires i < |rows|
    ensures var r := rows[i]; var before := LevelNames(rows[..i], level);
      LevelNames(rows[..i + 1], level) ==
        if r.parentGroup == level && r.groupName !in before then before + [r.groupName] else before
    ensures forall g :: (FirstId(rows[..i + 1], level, g) ==
      (if FirstId(rows[..i], level, g).Some? then FirstId(rows[..i], level, g)
       else if rows[i].parentGroup == level && rows[i].groupName == g then Some(rows[i].groupId)
       else None))
    ensures forall g :: (ItemsOf(rows[..i + 1], level, g) == ItemsOf(rows[..i], level, g) +
      (if rows[i].parentGroup == level && rows[i].groupName == g && rows[i].itemCode.Some? then [ToItem(rows[i])] else []))
  {
    assert rows[..i + 1][..i] == rows[..i];
  }

  // ---------------------------------------------------------------------
  // What one level holds (pos_item.py:45-67)
  // ---------------------------------------------------------------------

  /** The row of `level` named `g` whose id the node takes is the first such row. */
  lemma {:induction false} FirstIdIsFirstRow(rows: seq<Row>, level: Option<string>, g: string)
    requires FirstId(rows, level, g).Some?
    ensures exists k :: (0 <= k < |rows| && rows[k].parentGroup == level && rows[k].groupName == g &&
      rows[k].groupId == FirstId(rows, level, g).value &&
      forall k' :: 0 <= k' < k ==> !(rows[k'].parentGroup == level && rows[k'].groupName == g))
  {
    var pre := rows[..|rows| - 1];
    if FirstId(pre, level, g).Some? {
      FirstIdIsFirstRow(pre, level, g);
      var k :| (0 <= k < |pre| && pre[k].parentGroup == level && pre[k].groupName == g &&
        pre[k].groupId == FirstId(pre, level, g).value &&
        forall k' :: 0 <= k' < k ==> !(pre[k'].parentGroup == level && pre[k'].groupName == g));
      assert forall k' :: 0 <= k' <= k ==> rows[k'] == pre[k'];
    } else {
      NoRowBeforeFirstId(pre, level, g);
      assert forall k' :: 0 <= k' < |pre| ==> rows[k'] == pre[k'];
    }
  }

  lemma {:induction false} NoRowBeforeFirstId(rows: seq<Row>, level: Option<string>, g: string)
    requires FirstId(rows, level, g).None?
    ensures forall k :: 0 <= k < |rows| ==> !(rows[k].parentGroup == level && rows[k].groupName == g)
  {
    if rows != [] {
      var pre := rows[..|rows| - 1];
      NoRowBeforeFirstId(pre, level, g);
      assert forall k :: 0 <= k < |pre| ==> rows[k] == pre[k];
    }
  }

  /** An item is in ItemsOf exactly when some row of `level` named `g` carries it. */
  lemma {:induction false} ItemsOfMembers(rows: seq<Row>, level: Option<string>, g: string, it: CatalogItem)
    ensures it in ItemsOf(rows, level, g) <==>
      exists k :: (0 <= k < |rows| && rows[k].parentGroup == level && rows[k].groupName == g &&
        rows[k].itemCode.Some? && ToItem(rows[k]) == it)
  {
    if rows != [] {
      var pre := rows[..|rows| - 1];
      ItemsOfMembers(pre, level, g, it);
      assert forall k :: 0 <= k < |pre| ==> rows[k] == pre[k];
    }
  }

  /** ItemsOf keeps row order: the items of a concatenation are the items of
      the first part followed by those of the second. */
  lemma {:induction false} ItemsOfAppend(a: seq<Row>, b: seq<Row>, level: Option<string>, g: string)
    ensures ItemsOf(a + b, level, g) == ItemsOf(a, level, g) + ItemsOf(b, level, g)
  {
    if b == [] {
      assert a + b == a;
    } else {
      var b' := b[..|b| - 1];
      ItemsOfAppend(a, b', level, g);
      assert (a + b)[..|a + b| - 1] == a + b';
    }
  }

  lemma LevelNodeAt(rows: seq<Row>, level: Option<string>, rank: map<string, nat>, i: nat)
    requires Ranked(rows, level, rank) && i < |LevelNames(rows, level)|
    ensures |Level(rows, level, rank)| == |LevelNames(rows, level)|
    ensures Level(rows, level, rank)[i].groupName == LevelNames(rows, level)[i]
    ensures Level(rows, level, rank)[i].parentGroup == level
  {
    var names := LevelNames(rows, level);
    LevelNamesRanked(rows, level, rank, names[i]);
    assert Level(rows, level, rank)[i] == Node(rows, level, names[i], rank);
  }

  /** Each distinct group name of a level yields exactly one node, no other
      name yields one, and every node records `level` as its parent. */
  lemma LevelOneNodePerName(rows: seq<Row>, level: Option<string>, rank: map<string, nat>, g: string)
    requires Ranked(rows, level, rank)
    ensures var tree := Level(rows, level, rank);
      (exists k :: 0 <= k < |rows| && rows[k].parentGroup == level && rows[k].groupName == g) <==>
      (exists i :: 0 <= i < |tree| && tree[i].groupName == g)
    ensures var tree := Level(rows, level, rank);
      forall i, j :: 0 <= i < j < |tree| ==> tree[i].groupName != tree[j].groupName
    ensures var tree := Level(rows, level, rank);
      forall i :: 0 <= i < |tree| ==> tree[i].parentGroup == level
  {
    var names := LevelNames(rows, level);
    var tree := Level(rows, level, rank);
    FirstSeenMembers(rows, ByName(level));
    FirstSeenDistinct(rows, ByName(level));
    forall i | 0 <= i < |tree|
      ensures tree[i].groupName == names[i] && tree[i].parentGroup == level
    {
      LevelNodeAt(rows, level, rank, i);
    }
    if exists k :: 0 <= k < |rows| && rows[k].parentGroup == level && rows[k].groupName == g {
      var k :| 0 <= k < |rows| && rows[k].parentGroup == level && rows[k].groupName == g;
      assert KeyOf(ByName(level), rows[k]) == Some(g);
      var i :| 0 <= i < |names| && names[i] == g;
      assert tree[i].groupName == g;
    }
    if exists i :: 0 <= i < |tree| && tree[i].groupName == g {
      var i :| 0 <= i < |tree| && tree[i].groupName == g;
      assert names[i] in names;
      var k :| 0 <= k < |rows| && KeyOf(ByName(level), rows[k]) == Some(names[i]);
      assert rows[k].parentGroup == level && rows[k].groupName == g;
    }
  }

  /** Nodes appear in the order in which their names first occur among the
      rows of the level. */
  lemma LevelFirstOccurrenceOrder(rows: seq<Row>, level: Option<string>, rank: map<string, nat>, i: nat, j: nat, k: nat)
    requires Ranked(rows, level, rank)
    requires i < j < |Level(rows, level, rank)| && k < |rows|
    requires rows[k].parentGroup == level && rows[k].groupName == Level(rows, level, rank)[j].groupName
    ensures exists k' :: (0 <= k' < k && rows[k'].parentGroup == level &&
      rows[k'].groupName == Level(rows, level, rank)[i].groupName)
  {
    var names := LevelNames(rows, level);
    var tree := Level(rows, level, rank);
    assert tree[i].groupName == names[i] && tree[j].groupName == names[j];
    assert KeyOf(ByName(level), rows[k]) == Some(names[j]);
    FirstSeenOrder(rows, ByName(level), i, j, k);
    var k' :| 0 <= k' < k && KeyOf(ByName(level), rows[k']) == Some(names[i]);
    assert rows[k'].parentGroup == level;
  }

  /** A node takes its item_group_id from the first row of its level and name. */
  lemma LevelNodeFirstRow(rows: seq<Row>, level: Option<string>, rank: map<string, nat>, i: nat)
    requires Ranked(rows, level, rank) && i < |Level(rows, level, rank)|
    ensures var n := Level(rows, level, rank)[i];
      exists k :: (0 <= k < |rows| && rows[k].parentGroup == level && rows[k].groupName == n.groupName &&
        rows[k].groupId == n.groupId &&
        forall k' :: 0 <= k' < k ==> !(rows[k'].parentGroup == level && rows[k'].groupName == n.groupName))
  {
    var names := LevelNames(rows, level);
    assert names[i] in names;
    FirstIdIsFirstRow(rows, level, names[i]);
  }

  // ---------------------------------------------------------------------
  // The whole forest
  // ---------------------------------------------------------------------

  /** `n` is a node of `forest` at any depth. */
  ghost predicate InForest(forest: seq<GroupNode>, n: GroupNode)
    decreases forest
  {
    exists i :: 0 <= i < |forest| && (forest[i] == n || InForest(forest[i].subGroups, n))
  }

  /** A parent value the forest hangs rows from: the start level or the name
      of one of its nodes. */
  ghost predicate UnderForest(forest: seq<GroupNode>, level: Option<string>, p: Option<string>)
  {
    p == level || (p.Some? && exists m :: InForest(forest, m) && m.groupName == p.value)
  }

  lemma {:induction false} InForestBelow(forest: seq<GroupNode>, m: GroupNode, n: GroupNode)
    requires InForest(forest, m) && InForest(m.subGroups, n)
    ensures InForest(forest, n)
    decreases forest
  {
    var i :| 0 <= i < |forest| && (forest[i] == m || InForest(forest[i].subGroups, m));
    if forest[i] != m {
      InForestBelow(forest[i].subGroups, m, n);
    }
  }

  /** Every node, at any depth, is the node its own level and name define:
      in particular its sub_groups are build_group_tree(rows, parent=<its
      name>), matched by name.  Its parent is the start level or another node. */
  lemma {:induction false} NodeShape(rows: seq<Row>, level: Option<string>, rank: map<string, nat>, n: GroupNode)
    requires Ranked(rows, level, rank) && InForest(Level(rows, level, rank), n)
    ensures n.groupName in rank && Ranked(rows, n.parentGroup, rank)
    ensures n.groupName in LevelNames(rows, n.parentGroup)
    ensures n == Node(rows, n.parentGroup, n.groupName, rank)
    ensures UnderForest(Level(rows, level, rank), level, n.parentGroup)
    decreases if level.Some? && level.value in rank then 0 else 1,
              if level.Some? && level.value in rank then rank[level.value] else 0
  {
    var names := LevelNames(rows, level);
    var tree := Level(rows, level, rank);
    var i :| 0 <= i < |tree| && (tree[i] == n || InForest(tree[i].subGroups, n));
    LevelNamesRanked(rows, level, rank, names[i]);
    var g := names[i];
    assert tree[i] == Node(rows, level, g, rank);
    if tree[i] != n {
      var sub := Level(rows, Some(g), rank);
      NodeShape(rows, Some(g), rank, n);
      if n.parentGroup == Some(g) {
        assert InForest(tree, tree[i]);
      } else {
        var m :| InForest(sub, m) && m.groupName == n.parentGroup.value;
        InForestBelow(tree, tree[i], m);
      }
    }
  }

  /** Every row hanging from the start level or from a node of the forest
      gives rise to a node with its name and parent. */
  lemma RowHasNode(rows: seq<Row>, level: Option<string>, rank: map<string, nat>, k: nat)
    requires Ranked(rows, level, rank) && k < |rows|
    requires UnderForest(Level(rows, level, rank), level, rows[k].parentGroup)
    ensures exists n :: (InForest(Level(rows, level, rank), n) &&
      n.groupName == rows[k].groupName && n.parentGroup == rows[k].parentGroup)
  {
    var tree := Level(rows, level, rank);
    var p := rows[k].parentGroup;
    FirstSeenMembers(rows, ByName(p));
    assert KeyOf(ByName(p), rows[k]) == Some(rows[k].groupName);
    var names := LevelNames(rows, p);
    var j :| 0 <= j < |names| && names[j] == rows[k].groupName;
    if p == level {
      LevelNodeAt(rows, level, rank, j);
      assert InForest(tree, tree[j]);
    } else {
      var m :| InForest(tree, m) && m.groupName == p.value;
      NodeShape(rows, level, rank, m);
      var sub := Level(rows, p, rank);
      assert m.subGroups == sub;
      LevelNodeAt(rows, p, rank, j);
      assert InForest(m.subGroups, sub[j]);
      InForestBelow(tree, m, sub[j]);
    }
  }

  /** Every node of the forest comes from a row hanging from the start level
      or from another node, and takes that row's name, parent and id. */
  lemma NodeHasRow(rows: seq<Row>, level: Option<string>, rank: map<string, nat>, n: GroupNode)
    requires Ranked(rows, level, rank) && InForest(Level(rows, level, rank), n)
    ensures exists k :: (0 <= k < |rows| && rows[k].groupName == n.groupName &&
      rows[k].parentGroup == n.parentGroup && rows[k].groupId == n.groupId &&
      UnderForest(Level(rows, level, rank), level, rows[k].parentGroup))
  {
    NodeShape(rows, level, rank, n);
    FirstIdIsFirstRow(rows, n.parentGroup, n.groupName);
  }

  /** The items of a row hanging from the forest appear in the node of its group. */
  lemma RowItemInForest(rows: seq<Row>, level: Option<string>, rank: map<string, nat>, k: nat)
    requires Ranked(rows, level, rank) && k < |rows| && rows[k].itemCode.Some?
    requires UnderForest(Level(rows, level, rank), level, rows[k].parentGroup)
    ensures exists n :: (InForest(Level(rows, level, rank), n) &&
      n.groupName == rows[k].groupName && n.parentGroup == rows[k].parentGroup && ToItem(rows[k]) in n.items)
  {
    RowHasNode(rows, level, rank, k);
    var n :| InForest(Level(rows, level, rank), n) &&
      n.groupName == rows[k].groupName && n.parentGroup == rows[k].parentGroup;
    NodeShape(rows, level, rank, n);
    ItemsOfMembers(rows, n.parentGroup, n.groupName, ToItem(rows[k]));
  }

  /** Conversely, every item of the forest is the item of a row of its node's
      name and parent that hangs from the forest: rows that no parent_group
      chain links to the start level contribute nothing. */
  lemma ForestItemFromRow(rows: seq<Row>, level: Option<string>, rank: map<string, nat>, n: GroupNode, it: CatalogItem)
    requires Ranked(rows, level, rank) && InForest(Level(rows, level, rank), n) && it in n.items
    ensures exists k :: (0 <= k < |rows| && rows[k].itemCode.Some? && ToItem(rows[k]) == it &&
      rows[k].groupName == n.groupName && rows[k].parentGroup == n.parentGroup &&
      UnderForest(Level(rows, level, rank), level, rows[k].parentGroup))
  {
    NodeShape(rows, level, rank, n);
    ItemsOfMembers(rows, n.parentGroup, n.groupName, it);
  }

  /** No row the builder reaches names its own group as parent: with such a
      row below the start level the recursion at pos_item.py:75 calls itself
      with the same arguments until CPython's recursion limit raises
      RecursionError, and no rank exists. */
  lemma NoSelfParentUnderForest(rows: seq<Row>, level: Option<string>, rank: map<string, nat>, k: nat)
    requires Ranked(rows, level, rank) && k < |rows|
    requires UnderForest(Level(rows, level, rank), level, rows[k].parentGroup)
    ensures rows[k].parentGroup != Some(rows[k].groupName)
  {
    if rows[k].parentGroup != level {
      var m :| InForest(Level(rows, level, rank), m) && m.groupName == rows[k].parentGroup.value;
      NodeShape(rows, level, rank, m);
    }
  }
}
