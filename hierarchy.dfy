/**
 * The item-group hierarchy of a POS profile (abc_pos/api/item.py).
 *
 * The database reads of the source (the Item Group table, its child query
 * and the Item table) are an immutable snapshot passed in.  The walker
 * expands a group depth-first; a set of the group ids on the current path
 * cuts cycles, and each child receives its own copy of that set, so groups
 * reachable along two paths are expanded under both.
 */
module Hierarchy {
  import opened Results
  import CatalogTree
  import SessionRepo

  /** A row of the Item Group table: name, item_group_name, parent_item_group, is_group. */
  datatype GroupRow = GroupRow(id: string, groupName: string, parentId: Option<string>, isGroup: bool)

  /** A row of the Item table, with the fields the walker reads. */
  datatype ItemRow = ItemRow(
    code: string,
    itemName: string,
    description: string,
    stockUom: string,
    standardRate: Option<real>,
    disabled: int,
    itemGroup: string)

  /** The database as the walker sees it. */
  datatype Snapshot = Snapshot(groups: seq<GroupRow>, items: seq<ItemRow>)

  /** An item as returned to the client. */
  datatype FormattedItem = FormattedItem(
    itemCode: string,
    itemName: string,
    description: string,
    uom: string,
    rate: real,
    disabled: int)

  /** A group with its expanded child groups and its items. */
  datatype GroupTree = GroupTree(
    groupId: string,
    groupName: string,
    isGroup: bool,
    childGroups: seq<GroupTree>,
    items: seq<FormattedItem>)

  /** A row of the POS Item Group child table of a POS profile. */
  datatype PosItemGroup = PosItemGroup(parent: string, parentType: string, itemGroup: string)

  /** The ids of the Item Group table. */
  function Ids(s: Snapshot): set<string> {
    set g | g in s.groups :: g.id
  }

  /** frappe.db.get_value("Item Group", id): the row with that id, if any. */
  function Lookup(groups: seq<GroupRow>, id: string): (r: Option<GroupRow>)
    ensures r.Some? ==> r.value in groups && r.value.id == id
    ensures r.None? ==> forall g :: g in groups ==> g.id != id
  {
    if groups == [] then None
    else if groups[0].id == id then Some(groups[0])
    else Lookup(groups[1..], id)
  }

  /** The child-group query: ids of the groups whose parent is `id`, in table order. */
  function ChildIds(groups: seq<GroupRow>, id: string): seq<string>
  {
    if groups == [] then []
    else
      var g := groups[|groups| - 1];
      ChildIds(groups[..|groups| - 1], id) + (if g.parentId == Some(id) then [g.id] else [])
  }

  /** The item query of get_items_for_group: enabled items of group `id`, in table order. */
  function ItemQuery(items: seq<ItemRow>, id: string): seq<ItemRow>
  {
    if items == [] then []
    else
      var r := items[|items| - 1];
      ItemQuery(items[..|items| - 1], id) + (if r.itemGroup == id && r.disabled == 0 then [r] else [])
  }

  /** One formatted item: name becomes item_code, stock_uom becomes uom, and a
      falsy standard_rate becomes 0.0. */
  function Format(r: ItemRow): (f: FormattedItem)
    ensures f.itemCode == r.code && f.uom == r.stockUom
    ensures f.itemName == r.itemName && f.description == r.description && f.disabled == r.disabled
    ensures r.standardRate.Some? && r.standardRate.value != 0.0 ==> f.rate == r.standardRate.value
    ensures !(r.standardRate.Some? && r.standardRate.value != 0.0) ==> f.rate == 0.0
  {
    FormattedItem(r.code, r.itemName, r.description, r.stockUom, CatalogTree.Rate(r.standardRate), r.disabled)
  }

  function FormatAll(rows: seq<ItemRow>): (items: seq<FormattedItem>)
    ensures |items| == |rows|
    ensures forall i :: 0 <= i < |rows| ==> items[i] == Format(rows[i])
  {
    seq(|rows|, i requires 0 <= i < |rows| => Format(rows[i]))
  }

  // ---------------------------------------------------------------------
  // The walk as functions
  // ---------------------------------------------------------------------

  /** build_group_with_children(id, visited). */
  function Walk(s: Snapshot, id: string, visited: set<string>): (t: Option<GroupTree>)
    ensures t.Some? <==> id !in visited && Lookup(s.groups, id).Some?
    ensures t.Some? ==> t.value.groupId == id && t.value.items == FormatAll(ItemQuery(s.items, id))
    ensures t.Some? && !t.value.isGroup ==> t.value.childGroups == []
    decreases Ids(s) - visited, 0
  {
    if id in visited then None
    else match Lookup(s.groups, id)
      case None => None
      case Some(g) =>
        assert g.id in Ids(s);
        Some(GroupTree(g.id, g.groupName, g.isGroup,
          if g.isGroup then WalkAll(s, ChildIds(s.groups, id), visited + {id}) else [],
          FormatAll(ItemQuery(s.items, id))))
  }

  /** The trees of `kids`, each walked with the same `visited`; ids that
      yield no tree are dropped and the others keep their order. */
  function WalkAll(s: Snapshot, kids: seq<string>, visited: set<string>): seq<GroupTree>
    decreases Ids(s) - visited, 1, |kids|
  {
    if kids == [] then []
    else
      WalkAll(s, kids[..|kids| - 1], visited) +
        match Walk(s, kids[|kids| - 1], visited)
        case Some(t) => [t]
        case None => []
  }

  /** build_complete_hierarchy(roots): every root starts with an empty visited set. */
  function Hierarchy(s: Snapshot, roots: seq<string>): seq<GroupTree>
  {
    WalkAll(s, roots, {})
  }

  // ---------------------------------------------------------------------
  // The source's loops
  // ---------------------------------------------------------------------

  /** build_group_with_children (item.py:49-99).  The caller's set is never
      changed: the source adds to the copy it was handed. */
  method BuildGroupWithChildren(s: Snapshot, id: string, visited: set<string>) returns (tree: Option<GroupTree>)
    ensures tree == Walk(s, id, visited)
    decreases Ids(s) - visited, 0
  {
    if id in visited {
      return None;
    }
    var path := visited + {id};
    var row := Lookup(s.groups, id);
    if row.None? {
      return None;
    }
    var g := row.value;
    assert g.id in Ids(s);
    var children: seq<GroupTree> := [];
    if g.isGroup {
      var kids := ChildIds(s.groups, id);
      var j := 0;
      while j < |kids|
        invariant 0 <= j <= |kids|
        invariant children == WalkAll(s, kids[..j], path)
      {
        assert kids[..j + 1][..j] == kids[..j];
        var child := BuildGroupWithChildren(s, kids[j], path);
        if child.Some? {
          children := children + [child.value];
        }
        j := j + 1;
      }
      assert kids[..|kids|] == kids;
    }
    var items := GetItemsForGroup(s, id);
    tree := Some(GroupTree(g.id, g.groupName, g.isGroup, children, items));
  }

  /** build_complete_hierarchy (item.py:36-47). */
  method BuildCompleteHierarchy(s: Snapshot, roots: seq<string>) returns (hierarchy: seq<GroupTree>)
    ensures hierarchy == Hierarchy(s, roots)
  {
    hierarchy := [];
    var j := 0;
    while j < |roots|
      invariant 0 <= j <= |roots|
      invariant hierarchy == WalkAll(s, roots[..j], {})
    {
      assert roots[..j + 1][..j] == roots[..j];
      var tree := BuildGroupWithChildren(s, roots[j], {});
      if tree.Some? {
        hierarchy := hierarchy + [tree.value];
      }
      j := j + 1;
    }
    assert roots[..|roots|] == roots;
  }

  /** get_items_for_group (item.py:101-129): the query, then one formatted
      entry per returned row. */
  method GetItemsForGroup(s: Snapshot, id: string) returns (formatted: seq<FormattedItem>)
    ensures formatted == FormatAll(ItemQuery(s.items, id))
  {
    var rows := ItemQuery(s.items, id);
    formatted := [];
    var j := 0;
    while j < |rows|
      invariant 0 <= j <= |rows|
      invariant formatted == FormatAll(rows[..j])
    {
      formatted := formatted + [Format(rows[j])];
      j := j + 1;
    }
    assert rows[..|rows|] == rows;
  }

  // ---------------------------------------------------------------------
  // item_list (item.py:6-34)
  // ---------------------------------------------------------------------

  datatype ItemListResult =
    | NoActiveSession                  // session is None: reading session.pos_profile raises
    | NoItemGroups                     // {"ok": False, "message": ...}
    | Groups(posProfile: string, groups: seq<GroupTree>)

  /** The POS Item Group rows of a profile, in table order. */
  function ProfileGroups(rows: seq<PosItemGroup>, profile: string): seq<PosItemGroup>
  {
    if rows == [] then []
    else
      var r := rows[|rows| - 1];
      ProfileGroups(rows[..|rows| - 1], profile) +
        (if r.parent == profile && r.parentType == "POS Profile" then [r] else [])
  }

  function GroupIds(rows: seq<PosItemGroup>): (ids: seq<string>)
    ensures |ids| == |rows| && forall i :: 0 <= i < |rows| ==> ids[i] == rows[i].itemGroup
  {
    seq(|rows|, i requires 0 <= i < |rows| => rows[i].itemGroup)
  }

  /** item_list for the session the caller found active. */
  function ItemList(active: Option<SessionRepo.SessionView>, posItemGroups: seq<PosItemGroup>, s: Snapshot): (r: ItemListResult)
    ensures r.NoActiveSession? <==> active.None?
    ensures r.NoItemGroups? <==> active.Some? && ProfileGroups(posItemGroups, active.value.posProfile) == []
    ensures r.Groups? ==> (r.posProfile == active.value.posProfile &&
      r.groups == Hierarchy(s, GroupIds(ProfileGroups(posItemGroups, active.value.posProfile))))
  {
    match active
    case None => NoActiveSession
    case Some(session) =>
      var posGroups := ProfileGroups(posItemGroups, session.posProfile);
      if posGroups == [] then NoItemGroups
      else Groups(session.posProfile, Hierarchy(s, GroupIds(posGroups)))
  }

  // ---------------------------------------------------------------------
  // What the walk guarantees
  // ---------------------------------------------------------------------

  /** The walk of a list keeps exactly the trees of the ids that resolve. */
  lemma {:induction false} WalkAllMembers(s: Snapshot, kids: seq<string>, visited: set<string>, t: GroupTree)
    ensures t in WalkAll(s, kids, visited) <==> exists i :: 0 <= i < |kids| && Walk(s, kids[i], visited) == Some(t)
  {
    if kids != [] {
      var pre := kids[..|kids| - 1];
      var last := kids[|kids| - 1];
      WalkAllMembers(s, pre, visited, t);
      assert kids == pre + [last];
      if Walk(s, last, visited) == Some(t) {
        assert Walk(s, kids[|kids| - 1], visited) == Some(t);
      }
      if exists i :: 0 <= i < |kids| && Walk(s, kids[i], visited) == Some(t) {
        var i :| 0 <= i < |kids| && Walk(s, kids[i], visited) == Some(t);
        if i < |pre| {
          assert kids[i] == pre[i];
        }
      }
    }
  }

  /** Walking a concatenation walks each part with the same `visited`: no
      sibling or earlier root affects a later one. */
  lemma {:induction false} WalkAllAppend(s: Snapshot, a: seq<string>, b: seq<string>, visited: set<string>)
    ensures WalkAll(s, a + b, visited) == WalkAll(s, a, visited) + WalkAll(s, b, visited)
  {
    if b == [] {
      assert a + b == a;
    } else {
      var b' := b[..|b| - 1];
      WalkAllAppend(s, a, b', visited);
      assert (a + b)[..|a + b| - 1] == a + b';
    }
  }

  /** A root id listed twice yields its tree twice: each root starts from an
      empty visited set. */
  lemma RepeatedRootTwice(s: Snapshot, roots: seq<string>, i: nat, j: nat)
    requires i < j < |roots| && roots[i] == roots[j] && Walk(s, roots[i], {}).Some?
    ensures exists a, b :: (0 <= a < b < |Hierarchy(s, roots)| &&
      Hierarchy(s, roots)[a] == Walk(s, roots[i], {}).value && Hierarchy(s, roots)[b] == Walk(s, roots[i], {}).value)
  {
    var t := Walk(s, roots[i], {}).value;
    var front, back := roots[..j], roots[j..];
    assert roots == front + back;
    WalkAllAppend(s, front, back, {});
    assert back == [roots[j]] + back[1..];
    WalkAllAppend(s, [roots[j]], back[1..], {});
    assert [roots[j]][..0] == [];
    assert WalkAll(s, [roots[j]], {}) == [t];
    assert front[i] == roots[i];
    WalkAllMembers(s, front, {}, t);
    var h1 := WalkAll(s, front, {});
    var a :| 0 <= a < |h1| && h1[a] == t;
    assert Hierarchy(s, roots)[a] == t;
    assert Hierarchy(s, roots)[|h1|] == t;
  }

  /** No id repeats along a path of a tree, and none is in `banned`. */
  ghost predicate PathsFresh(t: GroupTree, banned: set<string>)
    decreases t
  {
    && t.groupId !in banned
    && forall c :: c in t.childGroups ==> PathsFresh(c, banned + {t.groupId})
  }

  /** Cycles are cut: no group id occurs twice on any path of a walked tree,
      and none of the ids already on the caller's path occurs in it. */
  lemma {:induction false} WalkPathsFresh(s: Snapshot, id: string, visited: set<string>)
    requires Walk(s, id, visited).Some?
    ensures PathsFresh(Walk(s, id, visited).value, visited)
    decreases Ids(s) - visited, 0
  {
    var g := Lookup(s.groups, id).value;
    assert g.id in Ids(s);
    if g.isGroup {
      WalkAllPathsFresh(s, ChildIds(s.groups, id), visited + {id});
    }
  }

  lemma {:induction false} WalkAllPathsFresh(s: Snapshot, kids: seq<string>, visited: set<string>)
    ensures forall t :: t in WalkAll(s, kids, visited) ==> PathsFresh(t, visited)
    decreases Ids(s) - visited, 1, |kids|
  {
    if kids != [] {
      WalkAllPathsFresh(s, kids[..|kids| - 1], visited);
      var last := kids[|kids| - 1];
      if Walk(s, last, visited).Some? {
        WalkPathsFresh(s, last, visited);
      }
    }
  }

  /** Every path of `t` has at most `n` groups. */
  ghost predicate HeightAtMost(t: GroupTree, n: nat)
    decreases t
  {
    && n >= 1
    && forall c :: c in t.childGroups ==> HeightAtMost(c, n - 1)
  }

  /** Recursion depth is bounded by the number of groups not yet on the path;
      from an empty path, by the number of distinct groups. */
  lemma {:induction false} WalkHeight(s: Snapshot, id: string, visited: set<string>)
    requires Walk(s, id, visited).Some?
    ensures HeightAtMost(Walk(s, id, visited).value, |Ids(s) - visited|)
    decreases Ids(s) - visited, 0
  {
    var g := Lookup(s.groups, id).value;
    assert g.id in Ids(s);
    var rest := Ids(s) - visited;
    assert Ids(s) - (visited + {id}) == rest - {id};
    assert |rest| >= 1;
    var t := Walk(s, id, visited).value;
    if g.isGroup {
      var kids := ChildIds(s.groups, id);
      assert t.childGroups == WalkAll(s, kids, visited + {id});
      assert |rest - {id}| == |rest| - 1;
      WalkAllHeight(s, kids, visited + {id});
    }
  }

  lemma {:induction false} WalkAllHeight(s: Snapshot, kids: seq<string>, visited: set<string>)
    ensures forall t :: t in WalkAll(s, kids, visited) ==> HeightAtMost(t, |Ids(s) - visited|)
    decreases Ids(s) - visited, 1, |kids|
  {
    if kids != [] {
      WalkAllHeight(s, kids[..|kids| - 1], visited);
      var last := kids[|kids| - 1];
      if Walk(s, last, visited).Some? {
        WalkHeight(s, last, visited);
      }
    }
  }

  /** The child-group query returns exactly the ids of the groups whose parent is `id`. */
  lemma {:induction false} ChildIdsMembers(groups: seq<GroupRow>, id: string, c: string)
    ensures c in ChildIds(groups, id) <==> exists g :: g in groups && g.parentId == Some(id) && g.id == c
  {
    if groups != [] {
      var pre := groups[..|groups| - 1];
      ChildIdsMembers(pre, id, c);
      assert groups == pre + [groups[|groups| - 1]];
    }
  }

  /** The item query returns exactly the enabled items of the group. */
  lemma {:induction false} ItemQueryMembers(items: seq<ItemRow>, id: string, r: ItemRow)
    ensures r in ItemQuery(items, id) <==> r in items && r.itemGroup == id && r.disabled == 0
  {
    if items != [] {
      var pre := items[..|items| - 1];
      ItemQueryMembers(pre, id, r);
      assert items == pre + [items[|items| - 1]];
    }
  }

  /** ... in table order. */
  lemma {:induction false} ItemQueryAppend(a: seq<ItemRow>, b: seq<ItemRow>, id: string)
    ensures ItemQuery(a + b, id) == ItemQuery(a, id) + ItemQuery(b, id)
  {
    if b == [] {
      assert a + b == a;
    } else {
      var b' := b[..|b| - 1];
      ItemQueryAppend(a, b', id);
      assert (a + b)[..|a + b| - 1] == a + b';
    }
  }
}
