/**
 Directory browsing: a depth-bounded recursive scan flattens a file system into a list of items, and
 the scan result rebuilds a tree from the items' parent paths.
 */
module DirectoryScan {
  import opened Wrappers

  type Name = string

  /** A path as its components, the way `pathlib` joins them. */
  type DirPath = seq<Name>

  /** What the metadata fetch of one entry does. */
  datatype Stat = StatOk | StatFails | StatTimesOut

  /** A file system entry; a directory may refuse to be listed. */
  datatype Node =
    | FileNode(name: Name, stat: Stat, size: nat)
    | DirNode(name: Name, stat: Stat, listable: bool, entries: seq<Node>)

  datatype Item = Item(
    name: Name,
    path: DirPath,
    isDirectory: bool,
    isHidden: bool,
    size: Option<nat>,
    parent: Option<DirPath>,
    depth: nat,
    relativePath: string)

  /** An item with no `children` (a leaf) or with a possibly empty list of them. */
  datatype Tree = Leaf(item: Item) | Branch(item: Item, children: seq<Tree>)

  predicate Hidden(name: Name) {
    name != [] && name[0] == '.'
  }

  /** No two entries of any directory share a name. */
  predicate UniqueNames(entries: seq<Node>)
    decreases entries
  {
    && (forall i, j :: 0 <= i < j < |entries| ==> entries[i].name != entries[j].name)
    && (forall i :: 0 <= i < |entries| && entries[i].DirNode? ==> UniqueNames(entries[i].entries))
  }

  // ----- Scanning

  /** The item for an entry; an entry whose metadata fetch times out gets a bare item at depth 0. */
  function ItemFor(path: DirPath, e: Node, depth: nat): Item {
    if e.stat.StatTimesOut? then
      Item(e.name, path + [e.name], false, Hidden(e.name), None, None, 0, "")
    else
      Item(e.name, path + [e.name], e.DirNode?, Hidden(e.name), if e.DirNode? then None else Some(e.size),
           Some(path), depth, e.name)
  }

  function ItemsFor(path: DirPath, e: Node, depth: nat): seq<Item> {
    if e.stat.StatFails? then [] else [ItemFor(path, e, depth)]
  }

  /** The items of one directory listing, in listing order. */
  function LevelItems(path: DirPath, entries: seq<Node>, depth: nat): seq<Item> {
    if entries == [] then [] else ItemsFor(path, entries[0], depth) + LevelItems(path, entries[1..], depth)
  }

  /** The directories a scan descends into. */
  predicate Expands(e: Node) {
    e.DirNode? && e.stat.StatOk? && !Hidden(e.name)
  }

  /** What scanning the entry as a subdirectory adds. */
  function ScanEntry(path: DirPath, e: Node, maxDepth: nat, depth: nat): seq<Item>
    decreases e, 0
  {
    if Expands(e) && e.listable then ScanDir(path + [e.name], e.entries, maxDepth, depth + 1) else []
  }

  function ScanSubdirs(path: DirPath, entries: seq<Node>, maxDepth: nat, depth: nat): seq<Item>
    decreases entries, 0
  {
    if entries == [] then []
    else ScanEntry(path, entries[0], maxDepth, depth) + ScanSubdirs(path, entries[1..], maxDepth, depth)
  }

  /** The flat list: the directory's own level first, then each subdirectory's list. */
  function ScanDir(path: DirPath, entries: seq<Node>, maxDepth: nat, depth: nat): seq<Item>
    decreases entries, 1
  {
    if depth < maxDepth then LevelItems(path, entries, depth) + ScanSubdirs(path, entries, maxDepth, depth)
    else LevelItems(path, entries, depth)
  }

  // ----- Rebuilding

  function ParentKey(item: Item): DirPath {
    if item.parent.Some? then item.parent.value else []
  }

  predicate IsChildOf(item: Item, p: DirPath) {
    item.depth > 0 && ParentKey(item) == p
  }

  /** The items grouped under parent path `p`, in list order. */
  function Group(items: seq<Item>, p: DirPath): (g: seq<Item>)
    ensures forall c :: c in g ==> c in items && IsChildOf(c, p)
  {
    if items == [] then []
    else (if IsChildOf(items[0], p) then [items[0]] else []) + Group(items[1..], p)
  }

  function Roots(items: seq<Item>): (r: seq<Item>)
    ensures forall c :: c in r ==> c in items && c.depth == 0
  {
    if items == [] then [] else (if items[0].depth == 0 then [items[0]] else []) + Roots(items[1..])
  }

  /** Every item grouped under a directory lies strictly deeper, and no item lies below `bound`. */
  ghost predicate Layered(items: seq<Item>, bound: nat) {
    && (forall c :: c in items ==> c.depth <= bound)
    && (forall d, c :: d in items && c in items && d.isDirectory && IsChildOf(c, d.path) ==> d.depth < c.depth)
  }

  /** A copy of the item with its children hung below it. */
  ghost function AddChildren(items: seq<Item>, item: Item, bound: nat): Tree
    requires Layered(items, bound) && item in items
    decreases bound - item.depth, 1, 0
  {
    if item.isDirectory then Branch(item, AddAll(items, Group(items, item.path), item.depth, bound))
    else Leaf(item)
  }

  ghost function AddAll(items: seq<Item>, group: seq<Item>, above: int, bound: nat): seq<Tree>
    requires Layered(items, bound) && forall c :: c in group ==> c in items && above < c.depth
    decreases bound - above, 0, |group|
  {
    if group == [] then []
    else [AddChildren(items, group[0], bound)] + AddAll(items, group[1..], above, bound)
  }

  /** The tree the scan result builds from its flat list. */
  ghost function Rebuild(items: seq<Item>, bound: nat): seq<Tree>
    requires Layered(items, bound)
  {
    AddAll(items, Roots(items), -1, bound)
  }

  // ----- The pruned file system

  /** What one entry of the file system should become, seen from the user's side. */
  function PrunedEntry(path: DirPath, e: Node, maxDepth: nat, depth: nat, keepTimeouts: bool): seq<Tree>
    decreases e, 0
  {
    match e.stat
    case StatFails => []
    case StatTimesOut => if keepTimeouts || depth == 0 then [Leaf(ItemFor(path, e, depth))] else []
    case StatOk =>
      if e.FileNode? then [Leaf(ItemFor(path, e, depth))]
      else
        var children :=
          if depth < maxDepth && Expands(e) && e.listable
          then Pruned(path + [e.name], e.entries, maxDepth, depth + 1, keepTimeouts)
          else [];
        [Branch(ItemFor(path, e, depth), children)]
  }

  /**
   The file system below `path`, cut at `maxDepth`, hidden directories unexpanded, siblings in listing
   order. Entries whose metadata timed out stand where they belong only if `keepTimeouts` is set.
   */
  function Pruned(path: DirPath, entries: seq<Node>, maxDepth: nat, depth: nat, keepTimeouts: bool): seq<Tree>
    decreases entries, 0
  {
    if entries == [] then []
    else
      PrunedEntry(path, entries[0], maxDepth, depth, keepTimeouts) +
      Pruned(path, entries[1..], maxDepth, depth, keepTimeouts)
  }

  /** The bare items of timed-out entries in a list of scanned subdirectories. */
  function Leaves(items: seq<Item>): seq<Tree> {
    if items == [] then [] else [Leaf(items[0])] + Leaves(items[1..])
  }

  // ----- Grouping distributes over the list

  lemma {:induction false} GroupConcat(a: seq<Item>, b: seq<Item>, p: DirPath)
    ensures Group(a + b, p) == Group(a, p) + Group(b, p)
    decreases |a|
  {
    if a == [] {
      assert a + b == b;
    } else {
      assert (a + b)[1..] == a[1..] + b && (a + b)[0] == a[0];
      GroupConcat(a[1..], b, p);
    }
  }

  lemma {:induction false} RootsConcat(a: seq<Item>, b: seq<Item>)
    ensures Roots(a + b) == Roots(a) + Roots(b)
    decreases |a|
  {
    if a == [] {
      assert a + b == b;
    } else {
      assert (a + b)[1..] == a[1..] + b && (a + b)[0] == a[0];
      RootsConcat(a[1..], b);
    }
  }

  /** The items of one level that carry metadata: the ones that can be grouped. */
  function PlacedItems(path: DirPath, entries: seq<Node>, depth: nat): seq<Item> {
    if entries == [] then []
    else
      (if entries[0].stat.StatOk? then [ItemFor(path, entries[0], depth)] else []) +
      PlacedItems(path, entries[1..], depth)
  }

  lemma {:induction false} LevelGroup(path: DirPath, entries: seq<Node>, depth: nat, p: DirPath)
    ensures Group(LevelItems(path, entries, depth), p)
      == if depth > 0 && p == path then PlacedItems(path, entries, depth) else []
    decreases |entries|
  {
    if entries != [] {
      GroupConcat(ItemsFor(path, entries[0], depth), LevelItems(path, entries[1..], depth), p);
      LevelGroup(path, entries[1..], depth, p);
    }
  }

  /** A scan of `path` only produces children of `path` and of paths below it. */
  lemma {:induction false} ScanStaysBelow(path: DirPath, entries: seq<Node>, maxDepth: nat, depth: nat, p: DirPath)
    requires !(path <= p)
    ensures Group(ScanDir(path, entries, maxDepth, depth), p) == []
    decreases entries, 1
  {
    LevelGroup(path, entries, depth, p);
    if depth < maxDepth {
      GroupConcat(LevelItems(path, entries, depth), ScanSubdirs(path, entries, maxDepth, depth), p);
      SubdirsStayBelow(path, entries, maxDepth, depth, p);
    }
  }

  /** No scanned subdirectory contributes to `p` unless `p` goes through its name. */
  lemma {:induction false} SubdirsStayBelow(path: DirPath, entries: seq<Node>, maxDepth: nat, depth: nat, p: DirPath)
    requires forall i :: 0 <= i < |entries| && Expands(entries[i]) ==> !(path + [entries[i].name] <= p)
    ensures Group(ScanSubdirs(path, entries, maxDepth, depth), p) == []
    decreases entries, 0
  {
    if entries != [] {
      GroupConcat(ScanEntry(path, entries[0], maxDepth, depth), ScanSubdirs(path, entries[1..], maxDepth, depth), p);
      if Expands(entries[0]) && entries[0].listable {
        ScanStaysBelow(path + [entries[0].name], entries[0].entries, maxDepth, depth + 1, p);
      }
      SubdirsStayBelow(path, entries[1..], maxDepth, depth, p);
    }
  }

  lemma UniqueTail(entries: seq<Node>)
    requires UniqueNames(entries) && entries != []
    ensures UniqueNames(entries[1..])
    ensures forall k :: 0 <= k < |entries[1..]| ==> entries[1..][k].name != entries[0].name
  {
    assert forall k :: 0 <= k < |entries[1..]| ==> entries[1..][k] == entries[k + 1];
  }

  /** A path goes through one entry of a directory at most. */
  lemma GoesThroughOne(path: DirPath, name: Name, other: Name, p: DirPath)
    requires path + [name] <= p && other != name
    ensures !(path + [other] <= p)
  {
    assert (path + [name])[|path|] == p[|path|] && (path + [other])[|path|] == other;
  }

  lemma {:induction false} SubdirGroup(
    path: DirPath, entries: seq<Node>, maxDepth: nat, depth: nat, i: nat, p: DirPath)
    requires UniqueNames(entries) && i < |entries| && path + [entries[i].name] <= p
    ensures Group(ScanSubdirs(path, entries, maxDepth, depth), p)
      == Group(ScanEntry(path, entries[i], maxDepth, depth), p)
    decreases |entries|
  {
    var first, rest := entries[0], entries[1..];
    GroupConcat(ScanEntry(path, first, maxDepth, depth), ScanSubdirs(path, rest, maxDepth, depth), p);
    UniqueTail(entries);
    hide UniqueNames, Group, ScanDir;
    if i == 0 {
      forall k | 0 <= k < |rest| && Expands(rest[k]) ensures !(path + [rest[k].name] <= p) {
        GoesThroughOne(path, first.name, rest[k].name, p);
      }
      SubdirsStayBelow(path, rest, maxDepth, depth, p);
    } else {
      assert rest[i - 1] == entries[i];
      if Expands(first) && first.listable {
        GoesThroughOne(path, rest[i - 1].name, first.name, p);
        ScanStaysBelow(path + [first.name], first.entries, maxDepth, depth + 1, p);
      }
      EmptyEntryGroup(path, first, maxDepth, depth, p);
      SubdirGroup(path, rest, maxDepth, depth, i - 1, p);
    }
  }

  /** An entry that is not scanned contributes nothing. */
  lemma EmptyEntryGroup(path: DirPath, e: Node, maxDepth: nat, depth: nat, p: DirPath)
    ensures !(Expands(e) && e.listable) ==> Group(ScanEntry(path, e, maxDepth, depth), p) == []
  {
  }

  /** What a scan of `path` groups under one of its entries is what scanning that entry groups there. */
  lemma ScanGroupBelow(path: DirPath, entries: seq<Node>, maxDepth: nat, depth: nat, i: nat, p: DirPath)
    requires UniqueNames(entries) && i < |entries| && path + [entries[i].name] <= p
    ensures Group(ScanDir(path, entries, maxDepth, depth), p)
      == if depth < maxDepth then Group(ScanEntry(path, entries[i], maxDepth, depth), p) else []
  {
    LevelGroup(path, entries, depth, p);
    if depth < maxDepth {
      GroupConcat(LevelItems(path, entries, depth), ScanSubdirs(path, entries, maxDepth, depth), p);
      SubdirGroup(path, entries, maxDepth, depth, i, p);
    }
  }

  lemma ScanGroupHere(path: DirPath, entries: seq<Node>, maxDepth: nat, depth: nat)
    ensures Group(ScanDir(path, entries, maxDepth, depth), path)
      == if depth > 0 then PlacedItems(path, entries, depth) else []
  {
    LevelGroup(path, entries, depth, path);
    if depth < maxDepth {
      GroupConcat(LevelItems(path, entries, depth), ScanSubdirs(path, entries, maxDepth, depth), path);
      SubdirsStayBelow(path, entries, maxDepth, depth, path);
    }
  }

  // ----- The scanned list is layered, so rebuilding terminates

  /** Depths follow path lengths; an item without metadata is never a directory. */
  predicate WellPlaced(c: Item, base: int, depth: nat, maxDepth: nat) {
    && c.depth <= maxDepth
    && (c.depth > 0 ==> c.parent.Some? && |c.parent.value| == base + c.depth)
    && (c.isDirectory ==> depth <= c.depth && |c.path| == base + c.depth + 1)
  }

  lemma {:induction false} LevelIsWellPlaced(path: DirPath, entries: seq<Node>, maxDepth: nat, depth: nat)
    requires depth <= maxDepth
    ensures forall c :: c in LevelItems(path, entries, depth) ==> WellPlaced(c, |path| - depth, depth, maxDepth)
    decreases |entries|
  {
    if entries != [] {
      LevelIsWellPlaced(path, entries[1..], maxDepth, depth);
    }
  }

  lemma {:induction false} ScanIsWellPlaced(path: DirPath, entries: seq<Node>, maxDepth: nat, depth: nat)
    requires depth <= maxDepth
    ensures forall c :: c in ScanDir(path, entries, maxDepth, depth) ==> WellPlaced(c, |path| - depth, depth, maxDepth)
    decreases entries, 1
  {
    LevelIsWellPlaced(path, entries, maxDepth, depth);
    if depth < maxDepth {
      SubdirsAreWellPlaced(path, entries, maxDepth, depth);
    }
  }

  lemma {:induction false} SubdirsAreWellPlaced(path: DirPath, entries: seq<Node>, maxDepth: nat, depth: nat)
    requires depth < maxDepth
    ensures forall c :: c in ScanSubdirs(path, entries, maxDepth, depth) ==>
      WellPlaced(c, |path| - depth, depth + 1, maxDepth)
    decreases entries, 0
  {
    if entries != [] {
      SubdirsAreWellPlaced(path, entries[1..], maxDepth, depth);
      if ScanEntry(path, entries[0], maxDepth, depth) != [] {
        var below := path + [entries[0].name];
        ScanIsWellPlaced(below, entries[0].entries, maxDepth, depth + 1);
        assert ScanEntry(path, entries[0], maxDepth, depth) == ScanDir(below, entries[0].entries, maxDepth, depth + 1);
        forall c | c in ScanEntry(path, entries[0], maxDepth, depth)
          ensures WellPlaced(c, |path| - depth, depth + 1, maxDepth)
        {
          assert WellPlaced(c, |below| - (depth + 1), depth + 1, maxDepth);
        }
      }
    }
  }

  /** Depth strictly grows from a directory to the items grouped under it, whatever the file system. */
  lemma ScanIsLayered(path: DirPath, entries: seq<Node>, maxDepth: nat)
    ensures Layered(ScanDir(path, entries, maxDepth, 0), maxDepth)
  {
    ScanIsWellPlaced(path, entries, maxDepth, 0);
    var items := ScanDir(path, entries, maxDepth, 0);
    forall d, c | d in items && c in items && d.isDirectory && IsChildOf(c, d.path) ensures d.depth < c.depth {
      assert WellPlaced(d, |path|, 0, maxDepth) && WellPlaced(c, |path|, 0, maxDepth);
    }
  }

  // ----- The round trip

  /** Below `path`, the whole list groups items exactly as the scan of `path` alone does. */
  ghost predicate Local(all: seq<Item>, path: DirPath, entries: seq<Node>, maxDepth: nat, depth: nat) {
    forall p: DirPath :: path <= p ==> Group(all, p) == Group(ScanDir(path, entries, maxDepth, depth), p)
  }

  /** The items hung directly below a scanned directory: at the root, timed-out ones too. */
  function HungItems(path: DirPath, entries: seq<Node>, depth: nat): seq<Item> {
    if depth == 0 then LevelItems(path, entries, depth) else PlacedItems(path, entries, depth)
  }

  lemma LocalBelow(all: seq<Item>, path: DirPath, entries: seq<Node>, maxDepth: nat, depth: nat, i: nat)
    requires UniqueNames(entries) && i < |entries| && Local(all, path, entries, maxDepth, depth) && depth < maxDepth
    requires Expands(entries[i]) && entries[i].listable
    ensures Local(all, path + [entries[i].name], entries[i].entries, maxDepth, depth + 1)
    ensures UniqueNames(entries[i].entries)
  {
    forall p: DirPath | path + [entries[i].name] <= p
      ensures Group(all, p) == Group(ScanDir(path + [entries[i].name], entries[i].entries, maxDepth, depth + 1), p)
    {
      assert path <= p;
      ScanGroupBelow(path, entries, maxDepth, depth, i, p);
    }
  }

  /** What the whole list groups under a directory entry: its placed items if it was scanned. */
  lemma EntryGroup(all: seq<Item>, path: DirPath, entries: seq<Node>, maxDepth: nat, depth: nat, i: nat)
    requires UniqueNames(entries) && i < |entries| && Local(all, path, entries, maxDepth, depth)
    requires entries[i].DirNode? && entries[i].stat.StatOk?
    ensures Group(all, path + [entries[i].name])
      == (if depth < maxDepth && Expands(entries[i]) && entries[i].listable
          then HungItems(path + [entries[i].name], entries[i].entries, depth + 1) else [])
  {
    hide ScanDir, UniqueNames, Group, PlacedItems, LevelItems;
    var e := entries[i];
    var p := path + [e.name];
    assert path <= p;
    ScanGroupBelow(path, entries, maxDepth, depth, i, p);
    EmptyEntryGroup(path, e, maxDepth, depth, p);
    if depth < maxDepth && Expands(e) && e.listable {
      ScanGroupHere(p, e.entries, maxDepth, depth + 1);
    }
  }

  lemma GroupIsDeeper(all: seq<Item>, bound: nat, item: Item)
    requires Layered(all, bound) && item in all && item.isDirectory
    ensures item.depth <= bound && forall c :: c in Group(all, item.path) ==> c in all && item.depth < c.depth
  {
  }

  lemma {:induction false} PrunedDirectory(path: DirPath, e: Node, maxDepth: nat, depth: nat)
    requires e.DirNode? && e.stat.StatOk?
    ensures PrunedEntry(path, e, maxDepth, depth, false)
      == [Branch(ItemFor(path, e, depth),
                 if depth < maxDepth && Expands(e) && e.listable
                 then Pruned(path + [e.name], e.entries, maxDepth, depth + 1, false) else [])]
  {
  }

  /** One entry of a scanned directory is rebuilt as its pruned counterpart. */
  lemma {:induction false} EntryIsPruned(
    all: seq<Item>, bound: nat, path: DirPath, entries: seq<Node>, maxDepth: nat, depth: nat, i: nat)
    requires Layered(all, bound) && UniqueNames(entries) && i < |entries| && Local(all, path, entries, maxDepth, depth)
    requires entries[i].stat.StatOk? || (entries[i].stat.StatTimesOut? && depth == 0)
    requires ItemFor(path, entries[i], depth) in all
    ensures [AddChildren(all, ItemFor(path, entries[i], depth), bound)]
      == PrunedEntry(path, entries[i], maxDepth, depth, false)
    decreases entries, 0
  {
    hide Layered, Local, Group, UniqueNames, HungItems, ScanDir, ScanEntry, Pruned;
    var e := entries[i];
    var item := ItemFor(path, e, depth);
    if item.isDirectory {
      var scanned := depth < maxDepth && Expands(e) && e.listable;
      var children := if scanned then Pruned(item.path, e.entries, maxDepth, depth + 1, false) else [];
      EntryGroup(all, path, entries, maxDepth, depth, i);
      GroupIsDeeper(all, bound, item);
      var group := Group(all, item.path);
      if scanned {
        LocalBelow(all, path, entries, maxDepth, depth, i);
        DirectoryIsPruned(all, bound, item.path, e.entries, maxDepth, depth + 1, group, item.depth);
      }
      assert AddAll(all, group, item.depth, bound) == children;
      assert AddChildren(all, item, bound) == Branch(item, children);
      PrunedDirectory(path, e, maxDepth, depth);
    }
  }

  lemma {:induction false} LevelIsPruned(
    all: seq<Item>, bound: nat, path: DirPath, entries: seq<Node>, maxDepth: nat, depth: nat, i: nat, above: int)
    requires Layered(all, bound) && UniqueNames(entries) && i <= |entries| && Local(all, path, entries, maxDepth, depth)
    requires forall c :: c in HungItems(path, entries[i..], depth) ==> c in all && above < c.depth
    ensures AddAll(all, HungItems(path, entries[i..], depth), above, bound)
      == Pruned(path, entries[i..], maxDepth, depth, false)
    decreases entries, 1, |entries| - i
  {
    if i < |entries| {
      var rest := entries[i + 1..];
      assert entries[i..][0] == entries[i] && entries[i..][1..] == rest;
      var group := HungItems(path, entries[i..], depth);
      if entries[i].stat.StatOk? || (entries[i].stat.StatTimesOut? && depth == 0) {
        var item := ItemFor(path, entries[i], depth);
        assert group == [item] + HungItems(path, rest, depth);
        assert group[0] == item && group[1..] == HungItems(path, rest, depth);
        EntryIsPruned(all, bound, path, entries, maxDepth, depth, i);
      } else {
        assert group == HungItems(path, rest, depth);
      }
      LevelIsPruned(all, bound, path, entries, maxDepth, depth, i + 1, above);
    }
  }

  lemma {:induction false} DirectoryIsPruned(
    all: seq<Item>, bound: nat, path: DirPath, entries: seq<Node>, maxDepth: nat, depth: nat,
    group: seq<Item>, above: int)
    requires Layered(all, bound) && UniqueNames(entries) && Local(all, path, entries, maxDepth, depth)
    requires group == HungItems(path, entries, depth) && forall c :: c in group ==> c in all && above < c.depth
    ensures AddAll(all, group, above, bound) == Pruned(path, entries, maxDepth, depth, false)
    decreases entries, 2
  {
    assert entries[0..] == entries;
    LevelIsPruned(all, bound, path, entries, maxDepth, depth, 0, above);
  }
}
