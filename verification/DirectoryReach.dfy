/** Which entries of a file system a scan lists, and what it says of each, in terms of the entries alone. */
module DirectoryReach {
  import opened Wrappers
  import opened DirectoryScan

  /** A directory a scan goes into: readable, and not hidden behind a leading dot. */
  predicate Opens(e: Node) {
    e.DirNode? && e.listable && e.stat == StatOk && (e.name == "" || e.name[0] != '.')
  }

  /** The trail leads from one of the entries down to its last node, through directories that open. */
  predicate Leads(entries: seq<Node>, trail: seq<Node>)
    decreases |trail|
  {
    && trail != [] && trail[0] in entries
    && (|trail| > 1 ==> Opens(trail[0]) && Leads(trail[0].entries, trail[1..]))
  }

  function Last(trail: seq<Node>): Node
    requires trail != []
  {
    trail[|trail| - 1]
  }

  /** The names along the trail. */
  function Names(trail: seq<Node>): (names: seq<Name>)
    ensures |names| == |trail|
  {
    if trail == [] then [] else [trail[0].name] + Names(trail[1..])
  }

  /**
   What is said of the last node of a trail that starts in a directory `depth` levels below the target: an
   entry whose metadata timed out has its name, path and hidden flag only.
   */
  predicate Describes(item: Item, path: DirPath, trail: seq<Node>, depth: nat)
    requires trail != []
  {
    var e := Last(trail);
    && item.name == e.name && item.path == path + Names(trail)
    && item.isHidden == (e.name != "" && e.name[0] == '.')
    && (if e.stat == StatTimesOut
        then (&& !item.isDirectory && item.size == None && item.parent == None && item.depth == 0
              && item.relativePath == "")
        else (&& item.isDirectory == e.DirNode? && (e.FileNode? ==> item.size == Some(e.size))
              && (e.DirNode? ==> item.size == None) && item.parent == Some(path + Names(trail)[..|trail| - 1])
              && item.depth == depth + |trail| - 1 && item.relativePath == e.name))
  }

  /** The item stands for a node that can be reached and whose metadata can be had. */
  ghost predicate Reached(item: Item, path: DirPath, entries: seq<Node>, maxDepth: nat, depth: nat) {
    exists trail :: ReachedBy(item, path, entries, maxDepth, depth, trail)
  }

  predicate ReachedBy(
    item: Item, path: DirPath, entries: seq<Node>, maxDepth: nat, depth: nat, trail: seq<Node>)
  {
    && Leads(entries, trail) && depth + |trail| - 1 <= maxDepth
    && Last(trail).stat != StatFails && Describes(item, path, trail, depth)
  }

  lemma LevelItem(path: DirPath, e: Node, depth: nat, item: Item)
    ensures item in ItemsFor(path, e, depth) <==> e.stat != StatFails && Describes(item, path, [e], depth)
  {
    assert [e][1..] == [] && Names([e]) == [e.name];
    assert path + [e.name][..0] == path;
  }

  lemma {:induction false} LevelItemsIff(path: DirPath, entries: seq<Node>, depth: nat, item: Item)
    ensures item in LevelItems(path, entries, depth)
      <==> exists e :: e in entries && e.stat != StatFails && Describes(item, path, [e], depth)
    decreases |entries|
  {
    if entries != [] {
      hide Describes, ItemsFor;
      LevelItem(path, entries[0], depth, item);
      LevelItemsIff(path, entries[1..], depth, item);
      assert forall e :: e in entries <==> e == entries[0] || e in entries[1..];
    }
  }

  /** One node further up the trail. */
  lemma DescribesUp(item: Item, path: DirPath, e: Node, trail: seq<Node>, depth: nat)
    requires trail != []
    ensures Describes(item, path + [e.name], trail, depth + 1) <==> Describes(item, path, [e] + trail, depth)
  {
    var whole := [e] + trail;
    assert whole[1..] == trail && Last(whole) == Last(trail);
    assert Names(whole) == [e.name] + Names(trail);
    assert path + [e.name] + Names(trail) == path + Names(whole);
    assert path + [e.name] + Names(trail)[..|trail| - 1] == path + Names(whole)[..|whole| - 1];
  }

  lemma ReachedUp(item: Item, path: DirPath, entries: seq<Node>, maxDepth: nat, depth: nat, e: Node, trail: seq<Node>)
    requires e in entries && Opens(e) && trail != []
    ensures ReachedBy(item, path + [e.name], e.entries, maxDepth, depth + 1, trail)
      <==> ReachedBy(item, path, entries, maxDepth, depth, [e] + trail)
  {
    hide Describes;
    var whole := [e] + trail;
    assert whole[0] == e && whole[1..] == trail && Last(whole) == Last(trail);
    DescribesUp(item, path, e, trail, depth);
  }

  lemma {:induction false} SubdirItemsIff(
    path: DirPath, entries: seq<Node>, maxDepth: nat, depth: nat, item: Item)
    requires depth < maxDepth
    ensures item in ScanSubdirs(path, entries, maxDepth, depth)
      <==> exists e :: e in entries && Opens(e) && Reached(item, path + [e.name], e.entries, maxDepth, depth + 1)
    decreases entries, 0
  {
    if entries != [] {
      hide Reached, ScanDir;
      var first := entries[0];
      if Expands(first) && first.listable {
        ScannedItemsIff(path + [first.name], first.entries, maxDepth, depth + 1, item);
      }
      SubdirItemsIff(path, entries[1..], maxDepth, depth, item);
      assert forall e :: e in entries <==> e == first || e in entries[1..];
    }
  }

  /**
   An item is in a scan's list if and only if it describes a node reached from the target through at most
   `maxDepth` directories that open.
   */
  lemma {:induction false} ScannedItemsIff(
    path: DirPath, entries: seq<Node>, maxDepth: nat, depth: nat, item: Item)
    requires depth <= maxDepth
    ensures item in ScanDir(path, entries, maxDepth, depth) <==> Reached(item, path, entries, maxDepth, depth)
    decreases entries, 1
  {
    LevelItemsIff(path, entries, depth, item);
    if depth < maxDepth {
      SubdirItemsIff(path, entries, maxDepth, depth, item);
    }
    ReachedIff(item, path, entries, maxDepth, depth);
    hide Reached, Describes;
  }

  /** What is reached is an entry itself or reached from one that opens. */
  lemma ReachedIff(item: Item, path: DirPath, entries: seq<Node>, maxDepth: nat, depth: nat)
    requires depth <= maxDepth
    ensures Reached(item, path, entries, maxDepth, depth)
      <==> || (exists e :: e in entries && e.stat != StatFails && Describes(item, path, [e], depth))
           || (depth < maxDepth
               && exists e ::
                    e in entries && Opens(e) && Reached(item, path + [e.name], e.entries, maxDepth, depth + 1))
  {
    hide Describes;
    if Reached(item, path, entries, maxDepth, depth) {
      var trail :| ReachedBy(item, path, entries, maxDepth, depth, trail);
      var e, rest := trail[0], trail[1..];
      assert trail == [e] + rest;
      if rest != [] {
        ReachedUp(item, path, entries, maxDepth, depth, e, rest);
        assert Reached(item, path + [e.name], e.entries, maxDepth, depth + 1);
      } else {
        assert trail == [e] && Last(trail) == e;
      }
    }
    if e :| e in entries && e.stat != StatFails && Describes(item, path, [e], depth) {
      assert ReachedBy(item, path, entries, maxDepth, depth, [e]);
    }
    if depth < maxDepth {
      if e :| e in entries && Opens(e) && Reached(item, path + [e.name], e.entries, maxDepth, depth + 1) {
        var trail :| ReachedBy(item, path + [e.name], e.entries, maxDepth, depth + 1, trail);
        ReachedUp(item, path, entries, maxDepth, depth, e, trail);
      }
    }
  }

  /** The items are those of all nodes reached through one of the entries. */
  ghost predicate AllReached(items: seq<Item>, path: DirPath, entries: seq<Node>, maxDepth: nat, depth: nat) {
    forall item :: item in items <==>
      exists e :: e in entries && Opens(e) && Reached(item, path + [e.name], e.entries, maxDepth, depth + 1)
  }

  lemma SubdirsReach(path: DirPath, entries: seq<Node>, maxDepth: nat, depth: nat)
    requires depth < maxDepth
    ensures AllReached(ScanSubdirs(path, entries, maxDepth, depth), path, entries, maxDepth, depth)
  {
    forall item: Item
      ensures item in ScanSubdirs(path, entries, maxDepth, depth) <==>
        exists e :: e in entries && Opens(e) && Reached(item, path + [e.name], e.entries, maxDepth, depth + 1)
    {
      SubdirItemsIff(path, entries, maxDepth, depth, item);
    }
  }
}
