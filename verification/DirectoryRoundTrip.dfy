/** Scanning and rebuilding together: what the user sees is the pruned file system. */
module DirectoryRoundTrip {
  import opened DirectoryScan

  lemma {:induction false} LevelRoots(path: DirPath, entries: seq<Node>)
    ensures Roots(LevelItems(path, entries, 0)) == LevelItems(path, entries, 0)
    decreases |entries|
  {
    if entries != [] {
      RootsConcat(ItemsFor(path, entries[0], 0), LevelItems(path, entries[1..], 0));
      LevelRoots(path, entries[1..]);
    }
  }

  /** The bare items of entries below the root whose metadata timed out. */
  function Hoisted(path: DirPath, entries: seq<Node>, maxDepth: nat): seq<Item> {
    if 0 < maxDepth then Roots(ScanSubdirs(path, entries, maxDepth, 0)) else []
  }

  lemma ScanRoots(path: DirPath, entries: seq<Node>, maxDepth: nat)
    ensures Roots(ScanDir(path, entries, maxDepth, 0))
      == LevelItems(path, entries, 0) + Hoisted(path, entries, maxDepth)
  {
    LevelRoots(path, entries);
    if 0 < maxDepth {
      RootsConcat(LevelItems(path, entries, 0), ScanSubdirs(path, entries, maxDepth, 0));
    }
  }

  lemma {:induction false} AddAllConcat(all: seq<Item>, a: seq<Item>, b: seq<Item>, above: int, bound: nat)
    requires Layered(all, bound) && forall c :: c in a + b ==> c in all && above < c.depth
    ensures AddAll(all, a + b, above, bound) == AddAll(all, a, above, bound) + AddAll(all, b, above, bound)
    decreases |a|
  {
    hide Layered, AddChildren;
    if a == [] {
      assert a + b == b;
    } else {
      assert (a + b)[1..] == a[1..] + b && (a + b)[0] == a[0];
      AddAllConcat(all, a[1..], b, above, bound);
    }
  }

  lemma {:induction false} AddAllLeaves(all: seq<Item>, group: seq<Item>, above: int, bound: nat)
    requires Layered(all, bound) && forall c :: c in group ==> c in all && above < c.depth && !c.isDirectory
    ensures AddAll(all, group, above, bound) == Leaves(group)
    decreases |group|
  {
    if group != [] {
      AddAllLeaves(all, group[1..], above, bound);
    }
  }

  /**
   The round trip, for every file system and every stat outcome: the rebuilt tree is the file system
   pruned at `maxDepth`, except that entries below the root whose metadata timed out come loose and
   stand, bare, behind the root's own entries.
   */
  lemma {:induction false} RebuildIsPruned(path: DirPath, entries: seq<Node>, maxDepth: nat)
    requires UniqueNames(entries)
    ensures Layered(ScanDir(path, entries, maxDepth, 0), maxDepth)
    ensures Rebuild(ScanDir(path, entries, maxDepth, 0), maxDepth)
      == Pruned(path, entries, maxDepth, 0, false) + Leaves(Hoisted(path, entries, maxDepth))
  {
    var all := ScanDir(path, entries, maxDepth, 0);
    var level := LevelItems(path, entries, 0);
    var loose := Hoisted(path, entries, maxDepth);
    ScanIsLayered(path, entries, maxDepth);
    ScanRoots(path, entries, maxDepth);
    assert forall c :: c in level + loose ==> c in Roots(all);
    if 0 < maxDepth {
      SubdirsAreWellPlaced(path, entries, maxDepth, 0);
      assert forall c :: c in loose ==> !c.isDirectory;
    }
    AddAllConcat(all, level, loose, -1, maxDepth);
    AddAllLeaves(all, loose, -1, maxDepth);
    DirectoryIsPruned(all, maxDepth, path, entries, maxDepth, 0, level, -1);
  }

  // ----- When the tree is exactly the pruned file system

  /** No entry below the root that the scan reaches runs into the metadata timeout. */
  predicate Punctual(entries: seq<Node>, maxDepth: nat, depth: nat)
    decreases entries
  {
    forall i :: 0 <= i < |entries| ==>
      (depth > 0 ==> !entries[i].stat.StatTimesOut?) &&
      (depth < maxDepth && Expands(entries[i]) && entries[i].listable ==>
        Punctual(entries[i].entries, maxDepth, depth + 1))
  }

  predicate PunctualEntry(e: Node, maxDepth: nat, depth: nat) {
    (depth > 0 ==> !e.stat.StatTimesOut?) &&
    (depth < maxDepth && Expands(e) && e.listable ==> Punctual(e.entries, maxDepth, depth + 1))
  }

  lemma PunctualSplit(entries: seq<Node>, maxDepth: nat, depth: nat)
    requires entries != []
    ensures Punctual(entries, maxDepth, depth)
      <==> PunctualEntry(entries[0], maxDepth, depth) && Punctual(entries[1..], maxDepth, depth)
  {
    var rest := entries[1..];
    if Punctual(entries, maxDepth, depth) {
      forall i | 0 <= i < |rest| ensures PunctualEntry(rest[i], maxDepth, depth) {
        assert rest[i] == entries[i + 1];
      }
    }
    if PunctualEntry(entries[0], maxDepth, depth) && Punctual(rest, maxDepth, depth) {
      forall i | 0 <= i < |entries| ensures PunctualEntry(entries[i], maxDepth, depth) {
        if i > 0 {
          assert entries[i] == rest[i - 1];
        }
      }
    }
  }

  /** A scanned level below the root comes loose nowhere exactly when it and all below are punctual. */
  lemma {:induction false} LooseBelow(path: DirPath, entries: seq<Node>, maxDepth: nat, depth: nat)
    requires depth > 0
    ensures Roots(ScanDir(path, entries, maxDepth, depth)) == [] <==> Punctual(entries, maxDepth, depth)
    decreases entries, 1, 0
  {
    if depth < maxDepth {
      RootsConcat(LevelItems(path, entries, depth), ScanSubdirs(path, entries, maxDepth, depth));
    }
    LooseLevel(path, entries, maxDepth, depth);
  }

  lemma {:induction false} LooseLevel(path: DirPath, entries: seq<Node>, maxDepth: nat, depth: nat)
    ensures (depth > 0 ==> Roots(LevelItems(path, entries, depth)) == [])
      && (depth < maxDepth ==> Roots(ScanSubdirs(path, entries, maxDepth, depth)) == [])
      <==> Punctual(entries, maxDepth, depth)
    decreases entries, 0, |entries|
  {
    if entries != [] {
      var e, rest := entries[0], entries[1..];
      PunctualSplit(entries, maxDepth, depth);
      RootsConcat(ItemsFor(path, e, depth), LevelItems(path, rest, depth));
      RootsConcat(ScanEntry(path, e, maxDepth, depth), ScanSubdirs(path, rest, maxDepth, depth));
      if Expands(e) && e.listable {
        LooseBelow(path + [e.name], e.entries, maxDepth, depth + 1);
      }
      LooseLevel(path, rest, maxDepth, depth);
    }
  }

  lemma {:induction false} PunctualPruning(path: DirPath, entries: seq<Node>, maxDepth: nat, depth: nat)
    requires Punctual(entries, maxDepth, depth)
    ensures Pruned(path, entries, maxDepth, depth, true) == Pruned(path, entries, maxDepth, depth, false)
    decreases entries, |entries|
  {
    if entries != [] {
      var e := entries[0];
      PunctualSplit(entries, maxDepth, depth);
      if depth < maxDepth && Expands(e) && e.listable {
        PunctualPruning(path + [e.name], e.entries, maxDepth, depth + 1);
      }
      PunctualPruning(path, entries[1..], maxDepth, depth);
    }
  }

  lemma {:induction false} RootsKeepTheirCount(path: DirPath, entries: seq<Node>, maxDepth: nat)
    ensures |Pruned(path, entries, maxDepth, 0, true)| == |Pruned(path, entries, maxDepth, 0, false)|
    decreases |entries|
  {
    if entries != [] {
      RootsKeepTheirCount(path, entries[1..], maxDepth);
    }
  }

  lemma {:induction false} LeavesKeepCount(items: seq<Item>)
    ensures |Leaves(items)| == |items|
    decreases |items|
  {
    if items != [] {
      LeavesKeepCount(items[1..]);
    }
  }

  /**
   The rebuilt tree is exactly the pruned file system, every entry in its place, if and only if no
   entry below the root ran into the metadata timeout.
   */
  lemma {:induction false} RoundTripIffPunctual(path: DirPath, entries: seq<Node>, maxDepth: nat)
    requires UniqueNames(entries)
    ensures Layered(ScanDir(path, entries, maxDepth, 0), maxDepth)
    ensures Rebuild(ScanDir(path, entries, maxDepth, 0), maxDepth) == Pruned(path, entries, maxDepth, 0, true)
      <==> Punctual(entries, maxDepth, 0)
  {
    RebuildIsPruned(path, entries, maxDepth);
    LooseLevel(path, entries, maxDepth, 0);
    RootsKeepTheirCount(path, entries, maxDepth);
    LeavesKeepCount(Hoisted(path, entries, maxDepth));
    if Punctual(entries, maxDepth, 0) {
      PunctualPruning(path, entries, maxDepth, 0);
    }
  }

  // ----- Every scanned item exactly once

  /** The items of a forest, a parent before its children. */
  function Preorder(trees: seq<Tree>): seq<Item>
    decreases trees, 0
  {
    if trees == [] then [] else PreorderOf(trees[0]) + Preorder(trees[1..])
  }

  function PreorderOf(t: Tree): seq<Item>
    decreases t, 1
  {
    if t.Leaf? then [t.item] else [t.item] + Preorder(t.children)
  }

  lemma {:induction false} PreorderConcat(a: seq<Tree>, b: seq<Tree>)
    ensures Preorder(a + b) == Preorder(a) + Preorder(b)
    decreases |a|
  {
    if a == [] {
      assert a + b == b;
    } else {
      assert (a + b)[1..] == a[1..] + b && (a + b)[0] == a[0];
      PreorderConcat(a[1..], b);
    }
  }

  lemma {:induction false} LeavesPreorder(items: seq<Item>)
    ensures Preorder(Leaves(items)) == items
    decreases |items|
  {
    if items != [] {
      LeavesPreorder(items[1..]);
      assert Leaves(items)[1..] == Leaves(items[1..]);
    }
  }

  /** What comes loose from a scanned directory: at the root only from its subdirectories. */
  function Loose(path: DirPath, entries: seq<Node>, maxDepth: nat, depth: nat): seq<Item> {
    (if depth > 0 then Roots(LevelItems(path, entries, depth)) else []) +
    (if depth < maxDepth then Roots(ScanSubdirs(path, entries, maxDepth, depth)) else [])
  }

  /** What one entry contributes to a scan, in either of the two parts of the list. */
  function Scanned(path: DirPath, e: Node, maxDepth: nat, depth: nat): seq<Item> {
    ItemsFor(path, e, depth) + (if depth < maxDepth then ScanEntry(path, e, maxDepth, depth) else [])
  }

  /** What of that comes loose. */
  function LooseEntry(path: DirPath, e: Node, maxDepth: nat, depth: nat): seq<Item> {
    (if depth > 0 then Roots(ItemsFor(path, e, depth)) else []) +
    (if depth < maxDepth then Roots(ScanEntry(path, e, maxDepth, depth)) else [])
  }

  lemma ScanSplits(path: DirPath, entries: seq<Node>, maxDepth: nat, depth: nat)
    requires entries != []
    ensures multiset(ScanDir(path, entries, maxDepth, depth))
      == multiset(Scanned(path, entries[0], maxDepth, depth)) + multiset(ScanDir(path, entries[1..], maxDepth, depth))
  {
    hide ScanEntry, ItemsFor;
  }

  lemma LooseSplits(path: DirPath, entries: seq<Node>, maxDepth: nat, depth: nat)
    requires entries != []
    ensures multiset(Loose(path, entries, maxDepth, depth))
      == multiset(LooseEntry(path, entries[0], maxDepth, depth)) + multiset(Loose(path, entries[1..], maxDepth, depth))
  {
    hide ScanEntry, ItemsFor, Roots;
    RootsConcat(ItemsFor(path, entries[0], depth), LevelItems(path, entries[1..], depth));
    RootsConcat(ScanEntry(path, entries[0], maxDepth, depth), ScanSubdirs(path, entries[1..], maxDepth, depth));
  }

  lemma LooseIsRoots(path: DirPath, entries: seq<Node>, maxDepth: nat, depth: nat)
    requires depth > 0
    ensures Loose(path, entries, maxDepth, depth) == Roots(ScanDir(path, entries, maxDepth, depth))
  {
    hide Roots;
    if depth < maxDepth {
      RootsConcat(LevelItems(path, entries, depth), ScanSubdirs(path, entries, maxDepth, depth));
    }
  }

  lemma {:induction false} EntryIsCovered(path: DirPath, e: Node, maxDepth: nat, depth: nat)
    ensures multiset(Scanned(path, e, maxDepth, depth))
      == multiset(Preorder(PrunedEntry(path, e, maxDepth, depth, false)))
        + multiset(LooseEntry(path, e, maxDepth, depth))
    decreases e
  {
    hide Scanned, LooseEntry, PrunedEntry, ScanDir, Pruned, Preorder, Roots;
    if depth < maxDepth && Expands(e) && e.listable {
      var below := path + [e.name];
      DirectoryIsCovered(below, e.entries, maxDepth, depth + 1);
      LooseIsRoots(below, e.entries, maxDepth, depth + 1);
      ScannedShape(path, e, maxDepth, depth);
    } else {
      UnscannedIsCovered(path, e, maxDepth, depth);
    }
  }

  lemma ScannedShape(path: DirPath, e: Node, maxDepth: nat, depth: nat)
    requires depth < maxDepth && Expands(e) && e.listable
    ensures var item, below := ItemFor(path, e, depth), path + [e.name];
      var inner := ScanDir(below, e.entries, maxDepth, depth + 1);
      && Scanned(path, e, maxDepth, depth) == [item] + inner
      && LooseEntry(path, e, maxDepth, depth) == Roots(inner)
      && Preorder(PrunedEntry(path, e, maxDepth, depth, false))
        == [item] + Preorder(Pruned(below, e.entries, maxDepth, depth + 1, false))
  {
    hide ScanDir, Pruned;
    var item, below := ItemFor(path, e, depth), path + [e.name];
    assert Roots([item]) == if item.depth == 0 then [item] else [];
    var pruned := PrunedEntry(path, e, maxDepth, depth, false);
    assert pruned == [Branch(item, Pruned(below, e.entries, maxDepth, depth + 1, false))];
    assert pruned[1..] == [];
  }

  lemma UnscannedIsCovered(path: DirPath, e: Node, maxDepth: nat, depth: nat)
    requires !(depth < maxDepth && Expands(e) && e.listable)
    ensures Scanned(path, e, maxDepth, depth)
      == Preorder(PrunedEntry(path, e, maxDepth, depth, false)) + LooseEntry(path, e, maxDepth, depth)
  {
    hide ScanDir, Pruned;
    var item := ItemFor(path, e, depth);
    assert Roots([item]) == if item.depth == 0 then [item] else [];
    assert [Leaf(item)][1..] == [] && [Branch(item, [])][1..] == [];
    assert Preorder([Leaf(item)]) == [item] && Preorder([Branch(item, [])]) == [item];
  }

  /** A scanned directory's items are those of its pruned tree together with what comes loose. */
  lemma {:induction false} DirectoryIsCovered(path: DirPath, entries: seq<Node>, maxDepth: nat, depth: nat)
    ensures multiset(ScanDir(path, entries, maxDepth, depth))
      == multiset(Preorder(Pruned(path, entries, maxDepth, depth, false)))
        + multiset(Loose(path, entries, maxDepth, depth))
    decreases entries, |entries|
  {
    if entries != [] {
      hide PrunedEntry, Scanned, LooseEntry, Loose, ScanDir, Preorder;
      EntryIsCovered(path, entries[0], maxDepth, depth);
      DirectoryIsCovered(path, entries[1..], maxDepth, depth);
      ScanSplits(path, entries, maxDepth, depth);
      LooseSplits(path, entries, maxDepth, depth);
      PreorderConcat(PrunedEntry(path, entries[0], maxDepth, depth, false),
                     Pruned(path, entries[1..], maxDepth, depth, false));
    }
  }

  /** Rebuilding loses nothing and repeats nothing: the tree holds each scanned item exactly once. */
  lemma EveryItemOnce(path: DirPath, entries: seq<Node>, maxDepth: nat)
    requires UniqueNames(entries)
    ensures Layered(ScanDir(path, entries, maxDepth, 0), maxDepth)
    ensures var all := ScanDir(path, entries, maxDepth, 0); multiset(Preorder(Rebuild(all, maxDepth))) == multiset(all)
  {
    RebuildIsPruned(path, entries, maxDepth);
    var loose := Hoisted(path, entries, maxDepth);
    PreorderConcat(Pruned(path, entries, maxDepth, 0, false), Leaves(loose));
    LeavesPreorder(loose);
    DirectoryIsCovered(path, entries, maxDepth, 0);
    assert Loose(path, entries, maxDepth, 0) == loose;
  }
}
