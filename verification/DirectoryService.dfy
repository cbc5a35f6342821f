/** The scanner service and the scan result's tree builder, as the loops the program runs. */
module DirectoryService {
  import opened Wrappers
  import opened DirectoryScan
  import opened DirectoryRoundTrip
  import opened DirectoryReach

  /** One listing: an item per entry, unreadable entries skipped. */
  method ListLevel(path: DirPath, entries: seq<Node>, depth: nat) returns (items: seq<Item>)
    ensures items == LevelItems(path, entries, depth)
  {
    hide ItemFor;
    items := [];
    var i := 0;
    assert entries[0..] == entries;
    while i < |entries|
      invariant 0 <= i <= |entries|
      invariant items + LevelItems(path, entries[i..], depth) == LevelItems(path, entries, depth)
    {
      assert entries[i..][0] == entries[i] && entries[i..][1..] == entries[i + 1..];
      ghost var rest := LevelItems(path, entries[i + 1..], depth);
      ghost var before := items;
      if !entries[i].stat.StatFails? {
        items := items + [ItemFor(path, entries[i], depth)];
      }
      assert items + rest == before + (ItemsFor(path, entries[i], depth) + rest);
      i := i + 1;
    }
    assert items == items + LevelItems(path, entries[i..], depth);
  }

  /** The scan of what `path` names; an unusable target gives an inaccessible, empty result. */
  method PerformDirectoryScan(path: DirPath, target: Option<Node>, recursive: bool, maxDepth: int, currentDepth: nat)
    returns (accessible: bool, items: seq<Item>)
    ensures accessible <==> currentDepth <= maxDepth && target.Some? && target.value.DirNode? && target.value.listable
    ensures items == if !accessible then []
                     else if recursive then ScanDir(path, target.value.entries, maxDepth, currentDepth)
                     else LevelItems(path, target.value.entries, currentDepth)
    decreases maxDepth - currentDepth, 1
  {
    items := [];
    accessible := false;
    if currentDepth > maxDepth || target.None? || !target.value.DirNode? || !target.value.listable {
      return;
    }
    accessible := true;
    items := ListLevel(path, target.value.entries, currentDepth);
    if recursive && currentDepth < maxDepth {
      var below := ScanSubdirectories(path, target.value.entries, maxDepth, currentDepth);
      items := items + below;
    }
  }

  /** The recursive part: every visible directory of the listing in turn, inaccessible ones skipped. */
  method ScanSubdirectories(path: DirPath, entries: seq<Node>, maxDepth: int, currentDepth: nat)
    returns (items: seq<Item>)
    requires currentDepth < maxDepth
    ensures items == ScanSubdirs(path, entries, maxDepth, currentDepth)
    ensures AllReached(items, path, entries, maxDepth, currentDepth)
    decreases maxDepth - currentDepth, 0
  {
    hide LevelItems, ScanDir, AllReached, ScanSubdirs;
    items := [];
    var i := 0;
    SubdirsEnd(path, entries, maxDepth, currentDepth);
    while i < |entries|
      invariant 0 <= i <= |entries|
      invariant items + ScanSubdirs(path, entries[i..], maxDepth, currentDepth)
        == ScanSubdirs(path, entries, maxDepth, currentDepth)
    {
      var e := entries[i];
      SubdirsStep(path, entries, maxDepth, currentDepth, i);
      ghost var before, rest := items, ScanSubdirs(path, entries[i + 1..], maxDepth, currentDepth);
      if Expands(e) {
        var accessible, subItems := PerformDirectoryScan(path + [e.name], Some(e), true, maxDepth, currentDepth + 1);
        if accessible {
          items := items + subItems;
        }
      }
      assert items + rest == before + (ScanEntry(path, e, maxDepth, currentDepth) + rest);
      i := i + 1;
    }
    assert items == items + ScanSubdirs(path, entries[i..], maxDepth, currentDepth);
    SubdirsReach(path, entries, maxDepth, currentDepth);
  }

  lemma SubdirsEnd(path: DirPath, entries: seq<Node>, maxDepth: nat, depth: nat)
    ensures ScanSubdirs(path, entries[0..], maxDepth, depth) == ScanSubdirs(path, entries, maxDepth, depth)
    ensures ScanSubdirs(path, entries[|entries|..], maxDepth, depth) == []
  {
    assert entries[0..] == entries;
  }

  lemma SubdirsStep(path: DirPath, entries: seq<Node>, maxDepth: nat, depth: nat, i: nat)
    requires i < |entries|
    ensures ScanSubdirs(path, entries[i..], maxDepth, depth)
      == ScanEntry(path, entries[i], maxDepth, depth) + ScanSubdirs(path, entries[i + 1..], maxDepth, depth)
  {
    assert entries[i..][0] == entries[i] && entries[i..][1..] == entries[i + 1..];
  }

  /** The dictionary of items by parent path agrees with the grouping of the list. */
  ghost predicate Represents(itemsByParent: map<DirPath, seq<Item>>, items: seq<Item>) {
    && (forall p :: p in itemsByParent ==> itemsByParent[p] == Group(items, p))
    && (forall p: DirPath :: Group(items, p) != [] ==> p in itemsByParent)
  }

  lemma GroupSnoc(items: seq<Item>, item: Item, p: DirPath)
    ensures Group(items + [item], p) == if IsChildOf(item, p) then Group(items, p) + [item] else Group(items, p)
  {
    GroupConcat(items, [item], p);
    assert [item][1..] == [];
  }

  lemma RootsSnoc(items: seq<Item>, item: Item)
    ensures Roots(items + [item]) == if item.depth == 0 then Roots(items) + [item] else Roots(items)
  {
    RootsConcat(items, [item]);
    assert [item][1..] == [];
  }

  /** Hangs the grouped items below `item`, recursively. */
  method AddChildrenTo(itemsByParent: map<DirPath, seq<Item>>, item: Item, ghost items: seq<Item>, ghost bound: nat)
    returns (copy: Tree)
    requires Layered(items, bound) && item in items && Represents(itemsByParent, items)
    ensures copy == AddChildren(items, item, bound)
    decreases bound - item.depth
  {
    hide Layered, Group;
    if item.isDirectory {
      GroupIsDeeper(items, bound, item);
    }
    if item.isDirectory && item.path in itemsByParent {
      var group := itemsByParent[item.path];
      var children: seq<Tree> := [];
      var i := 0;
      assert group[0..] == group;
      while i < |group|
        invariant 0 <= i <= |group|
        invariant children + AddAll(items, group[i..], item.depth, bound) == AddAll(items, group, item.depth, bound)
      {
        assert group[i..][0] == group[i] && group[i..][1..] == group[i + 1..];
        assert group[i] in group;
        var child := AddChildrenTo(itemsByParent, group[i], items, bound);
        children := children + [child];
        i := i + 1;
      }
      assert children == children + AddAll(items, group[i..], item.depth, bound);
      copy := Branch(item, children);
    } else {
      copy := if item.isDirectory then Branch(item, []) else Leaf(item);
    }
  }

  /** Splits the flat list into root items and the dictionary of the others by parent path. */
  method GroupByParent(items: seq<Item>) returns (itemsByParent: map<DirPath, seq<Item>>, rootItems: seq<Item>)
    ensures Represents(itemsByParent, items) && rootItems == Roots(items)
  {
    hide Group, Roots;
    itemsByParent := map[];
    rootItems := [];
    NothingToGroup();
    var i := 0;
    while i < |items|
      invariant 0 <= i <= |items|
      invariant Represents(itemsByParent, items[..i])
      invariant rootItems == Roots(items[..i])
    {
      var item := items[i];
      assert items[..i + 1] == items[..i] + [item];
      RootsSnoc(items[..i], item);
      forall p: DirPath ensures Group(items[..i + 1], p)
        == if IsChildOf(item, p) then Group(items[..i], p) + [item] else Group(items[..i], p)
      {
        GroupSnoc(items[..i], item, p);
      }
      if item.depth == 0 {
        rootItems := rootItems + [item];
      } else {
        var parent := ParentKey(item);
        var siblings := if parent in itemsByParent then itemsByParent[parent] else [];
        itemsByParent := itemsByParent[parent := siblings + [item]];
      }
      i := i + 1;
    }
    assert items[..i] == items;
  }

  lemma NothingToGroup()
    ensures Roots([]) == [] && forall p: DirPath :: Group([], p) == []
  {
  }

  /** Groups the flat list by parent path and builds the tree from the root items. */
  method BuildTreeStructure(items: seq<Item>, ghost bound: nat) returns (tree: seq<Tree>)
    requires Layered(items, bound)
    ensures tree == Rebuild(items, bound)
  {
    hide Layered, AddChildren, Group, Represents;
    var itemsByParent, rootItems := GroupByParent(items);
    tree := [];
    var i := 0;
    assert rootItems[0..] == rootItems;
    while i < |rootItems|
      invariant 0 <= i <= |rootItems|
      invariant tree + AddAll(items, rootItems[i..], -1, bound) == Rebuild(items, bound)
    {
      assert rootItems[i..][0] == rootItems[i] && rootItems[i..][1..] == rootItems[i + 1..];
      assert rootItems[i] in rootItems;
      var branch := AddChildrenTo(itemsByParent, rootItems[i], items, bound);
      tree := tree + [branch];
      i := i + 1;
    }
    assert tree == tree + AddAll(items, rootItems[i..], -1, bound);
  }

  /** The entries a scan can list: none unless the target is a listable directory. */
  function Entries(target: Option<Node>): seq<Node> {
    if target.Some? && target.value.DirNode? && target.value.listable then target.value.entries else []
  }

  /**
   A whole browse: scan the target, then rebuild. An unusable target gives an inaccessible, empty result;
   otherwise what comes out is the file system pruned at the depth asked for, which is zero for a scan
   that does not recurse.
   */
  method ScanDirectory(path: DirPath, target: Option<Node>, recursive: bool, maxDepth: int)
    returns (accessible: bool, items: seq<Item>, tree: seq<Tree>)
    requires UniqueNames(Entries(target))
    ensures accessible <==> 0 <= maxDepth && target.Some? && target.value.DirNode? && target.value.listable
    ensures !accessible ==> items == [] && tree == []
    ensures accessible ==>
      var entries, cut := target.value.entries, if recursive then maxDepth else 0;
      && items == ScanDir(path, entries, cut, 0)
      && (tree == Pruned(path, entries, cut, 0, true) <==> Punctual(entries, cut, 0))
      && multiset(Preorder(tree)) == multiset(items)
      && forall item :: item in items <==> Reached(item, path, entries, cut, 0)
  {
    hide ScanDir, Pruned, Punctual, UniqueNames, LevelItems, Reached;
    accessible, items := PerformDirectoryScan(path, target, recursive, maxDepth, 0);
    tree := [];
    if accessible {
      var cut := if recursive then maxDepth else 0;
      FlatScan(path, target.value.entries);
      RoundTripIffPunctual(path, target.value.entries, cut);
      EveryItemOnce(path, target.value.entries, cut);
      forall item ensures item in items <==> Reached(item, path, target.value.entries, cut, 0) {
        ScannedItemsIff(path, target.value.entries, cut, 0, item);
      }
      tree := BuildTreeStructure(items, cut);
    }
  }

  lemma FlatScan(path: DirPath, entries: seq<Node>)
    ensures ScanDir(path, entries, 0, 0) == LevelItems(path, entries, 0)
  {
  }
}
