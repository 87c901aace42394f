/** Exactly when an operation leaves the cached listings in agreement with the server, for the
    listings each driver really forgets. */
module Invalidation {
  import opened Basics
  import opened Directory
  import opened DirectoryDriver

  /** What the drivers quark and thunder_browser forget after a move or a deletion, for objects known
      by id (CollectItemIds): a directory's own listing, and a file's parent only when deleting. */
  function ReloadDirIds(items: seq<Obj>, forDelete: bool): set<Id> {
    if items == [] then {}
    else
      var item := items[|items| - 1];
      ReloadDirIds(items[..|items| - 1], forDelete)
      + (if item.kind == Dir then {item.id}
         else if forDelete && item.parent.At? then {item.parent.id}
         else {})
  }

  /** What is forgotten: the directories of the list and, when deleting, the parents that its files name. */
  lemma {:induction false} ForgottenIff(items: seq<Obj>, forDelete: bool, x: Id)
    ensures x in ReloadDirIds(items, forDelete) <==>
            IsDirOf(items, x) || (forDelete && exists k :: 0 <= k < |items| && NamesAsParent(items[k], x))
  {
    if items != [] {
      var n := |items| - 1;
      ForgottenIff(items[..n], forDelete, x);
      assert forall k :: 0 <= k < n ==> items[..n][k] == items[k];
    }
  }

  /** x is one of the directories in the list. */
  predicate IsDirOf(items: seq<Obj>, x: Id) {
    exists k :: 0 <= k < |items| && items[k].kind == Dir && items[k].id == x
  }

  /** A file whose handle has x for its parent. */
  predicate NamesAsParent(item: Obj, x: Id) {
    item.kind == File && item.parent == At(x)
  }

  /** A listing that lost or gained an entry, or has one under an old name, does not show its
      directory. */
  lemma ListingSpoiled(cached: Listings, tree: Tree, d: Id, item: Item)
    requires d in cached && IsDir(tree, d)
    requires (item in cached[d]) != IsChild(tree, d, item)
    ensures !Coherent(cached, tree)
  {
    assert !Fits(cached, tree, d);
  }

  /** Renaming through a handle: the cache stays right exactly when the name does not change or the
      listing of the real parent is not, or no longer, cached. A handle that came from a listing by
      path has no parent id, so then nothing is forgotten; nor is anything when a handle without a parent
      crashes the driver (DirectoryDriver.Driver.ObjRename). */
  lemma RenameKeepsIff(cached: Listings, tree: Tree, obj: Obj, newName: string)
    requires WellFormed(tree) && Coherent(cached, tree) && obj.id in tree
    ensures var left := cached - (if obj.parent.At? then {obj.parent.id} else {});
            Coherent(left, Renamed(tree, obj.id, newName)) <==>
            newName == tree[obj.id].name || tree[obj.id].parent !in left
  {
    var forgotten := if obj.parent.At? then {obj.parent.id} else {};
    var left := cached - forgotten;
    var tree' := Renamed(tree, obj.id, newName);
    var node := tree[obj.id];
    ForgetDoubtful(cached, tree, {}, forgotten);
    if newName == node.name {
      assert tree' == tree;
    } else if node.parent in left {
      assert Fits(left, tree, node.parent);
      var item := Item(obj.id, node.name, node.kind);
      assert IsChild(tree, node.parent, item);
      ListingSpoiled(left, tree', node.parent, item);
    } else {
      RenameSpoilsParent(left, tree, {}, obj.id, newName);
      ForgetDoubtful(left, tree', {} + {node.parent}, {node.parent});
      assert left - {node.parent} == left && {} + {node.parent} - {node.parent} == {};
    }
  }

  // ---------- deleting ----------

  /** gone is what goes with the items: they, all below them, and nothing else. */
  predicate GoesWith(tree: Tree, items: seq<Obj>, gone: set<Id>) {
    && gone <= tree.Keys
    && (forall k :: 0 <= k < |items| ==> items[k].id in gone)
    && (forall x :: x in tree && tree[x].parent in gone ==> x in gone)
    && (forall x :: x in gone ==> tree[x].parent in gone || exists k :: 0 <= k < |items| && items[k].id == x)
  }

  predicate ParentForgottenOrGone(tree: Tree, left: Listings, gone: set<Id>, obj: Obj) {
    obj.id in tree && (tree[obj.id].parent !in left || tree[obj.id].parent in gone)
  }

  /** Deleting any objects and forgetting any listings: right exactly when the real parent of each object
      is not cached any more, or went too. */
  lemma DeleteKeepsIff(cached: Listings, forgotten: set<Id>, tree: Tree, items: seq<Obj>, gone: set<Id>)
    requires WellFormed(tree) && Coherent(cached, tree) && GoesWith(tree, items, gone)
    ensures Coherent(cached - forgotten, Deleted(tree, gone)) <==>
            forall k :: 0 <= k < |items| ==> ParentForgottenOrGone(tree, cached - forgotten, gone, items[k])
  {
    var left, tree' := cached - forgotten, Deleted(tree, gone);
    if k :| 0 <= k < |items| && !ParentForgottenOrGone(tree, left, gone, items[k]) {
      var node := tree[items[k].id];
      var item := Item(items[k].id, node.name, node.kind);
      assert Fits(cached, tree, node.parent) && IsChild(tree, node.parent, item);
      assert IsDir(tree', node.parent);
      ListingSpoiled(left, tree', node.parent, item);
    } else {
      forall d | d in left ensures Fits(left, tree', d) {
        assert Fits(cached, tree, d);
        if IsDir(tree', d) {
          forall x | x in gone ensures tree[x].parent != d {
            if k :| 0 <= k < |items| && items[k].id == x {
              assert ParentForgottenOrGone(tree, left, gone, items[k]);
            }
          }
          assert forall item :: IsChild(tree', d, item) <==> IsChild(tree, d, item);
        }
      }
    }
  }

  /** quark deletes a list of objects in one request: right exactly when the real parent of each was not
      cached, or goes too, or is named as its parent by some file of the list. */
  lemma QuarkDeleteKeepsIff(cached: Listings, tree: Tree, items: seq<Obj>, gone: set<Id>)
    requires WellFormed(tree) && Coherent(cached, tree) && GoesWith(tree, items, gone)
    ensures AllThere(tree, items)
    ensures Coherent(cached - ReloadDirIds(items, true), Deleted(tree, gone)) <==>
            forall k :: 0 <= k < |items| ==> SparedWhenDeleted(cached, items, gone, tree[items[k].id].parent)
  {
    var forgotten := ReloadDirIds(items, true);
    DeleteKeepsIff(cached, forgotten, tree, items, gone);
    forall k | 0 <= k < |items|
      ensures items[k].id in tree
      ensures ParentForgottenOrGone(tree, cached - forgotten, gone, items[k])
              <==> SparedWhenDeleted(cached, items, gone, tree[items[k].id].parent)
    {
      ForgottenIff(items, true, tree[items[k].id].parent);
    }
  }

  predicate SparedWhenDeleted(cached: Listings, items: seq<Obj>, gone: set<Id>, parent: Id) {
    parent !in cached || parent in gone || exists k :: 0 <= k < |items| && NamesAsParent(items[k], parent)
  }

  /** Directories alone save no listing above them. */
  lemma QuarkDeleteDirsIff(cached: Listings, tree: Tree, items: seq<Obj>, gone: set<Id>)
    requires WellFormed(tree) && Coherent(cached, tree) && GoesWith(tree, items, gone)
    requires forall k :: 0 <= k < |items| ==> items[k].kind == Dir
    ensures AllThere(tree, items)
    ensures Coherent(cached - ReloadDirIds(items, true), Deleted(tree, gone)) <==>
            forall k :: 0 <= k < |items| ==> tree[items[k].id].parent !in cached || tree[items[k].id].parent in gone
  {
    QuarkDeleteKeepsIff(cached, tree, items, gone);
    assert forall k :: 0 <= k < |items| ==>
      (SparedWhenDeleted(cached, items, gone, tree[items[k].id].parent)
       <==> tree[items[k].id].parent !in cached || tree[items[k].id].parent in gone);
  }

  /** A directory with one object in it, and its listing. */
  lemma OneInside(parent: Id, id: Id, name: string, kind: Kind) returns (cached: Listings, tree: Tree)
    requires parent != ROOT && id != ROOT && id != parent
    ensures tree == map[parent := Node(ROOT, "", Dir), id := Node(parent, name, kind)]
    ensures cached == map[parent := [Item(id, name, kind)]]
    ensures WellFormed(tree) && Coherent(cached, tree)
  {
    tree := map[parent := Node(ROOT, "", Dir), id := Node(parent, name, kind)];
    cached := map[parent := [Item(id, name, kind)]];
    forall item ensures item in cached[parent] <==> IsChild(tree, parent, item) {
    }
    assert Fits(cached, tree, parent);
  }

  /** Deleting one directory out of a listed one leaves it in that listing. */
  lemma QuarkDeletesOneDir(parent: Id, id: Id, name: string)
    returns (cached: Listings, tree: Tree, items: seq<Obj>, gone: set<Id>)
    requires parent != ROOT && id != ROOT && id != parent
    ensures WellFormed(tree) && Coherent(cached, tree) && cached == map[parent := [Item(id, name, Dir)]]
    ensures items == [Obj(id, name, Dir, At(parent))] && IsHandle(tree, items[0]) && IsSubtree(tree, id, gone)
    ensures cached - ReloadDirIds(items, true) == cached && !Coherent(cached, Deleted(tree, gone))
  {
    cached, tree := OneInside(parent, id, name, Dir);
    items, gone := [Obj(id, name, Dir, At(parent))], {id};
    assert GoesWith(tree, items, gone) by { assert items[0].id == id; }
    QuarkDeleteDirsIff(cached, tree, items, gone);
    ForgottenIff(items, true, parent);
  }

  /** A deletion that stops after k items forgets nothing (DirectoryDriver.Driver.Delete returns early). */
  lemma PartialDeleteKeepsIff(cached: Listings, was: Tree, items: seq<Obj>, k: nat, tree: Tree)
    requires WellFormed(was) && Coherent(cached, was) && k <= |items|
    requires AllThere(was, items[..k]) && DeletedSoFar(cached, was, items, k, tree)
    ensures Coherent(cached, tree) <==>
            forall j :: 0 <= j < k ==> ParentForgottenOrGone(was, cached, was.Keys - tree.Keys, items[j])
  {
    var gone := was.Keys - tree.Keys;
    assert tree == Deleted(was, gone);
    GoneIsBelow(cached, was, items, k, tree);
    DeleteKeepsIff(cached, {}, was, items[..k], gone);
    assert cached - {} == cached;
    assert forall j :: 0 <= j < k ==> items[..k][j] == items[j];
  }

  lemma GoneIsBelow(cached: Listings, was: Tree, items: seq<Obj>, k: nat, tree: Tree)
    requires WellFormed(was) && k <= |items| && AllThere(was, items[..k]) && DeletedSoFar(cached, was, items, k, tree)
    ensures GoesWith(was, items[..k], was.Keys - tree.Keys)
  {
    var gone := was.Keys - tree.Keys;
    forall j | 0 <= j < k ensures items[..k][j].id in gone {
      var id := items[..k][j].id;
      assert Above(was, id, id, 0) && Within(was, id, items[j].id);
      assert Hit(was, items, k, id);
    }
    forall x | x in was && was[x].parent in gone ensures x in gone {
      var j :| 0 <= j < k && Within(was, was[x].parent, items[j].id) by { assert Hit(was, items, k, was[x].parent); }
      ChildIsWithin(was, x, items[j].id);
      assert Hit(was, items, k, x);
    }
    forall x | x in gone ensures was[x].parent in gone || exists j :: 0 <= j < k && items[..k][j].id == x {
      assert Hit(was, items, k, x);
      var j :| 0 <= j < k && Within(was, x, items[j].id);
      var n: nat :| Above(was, items[j].id, x, n);
      if n == 0 {
        assert items[..k][j].id == x;
      } else {
        var p := was[x].parent;
        assert Above(was, items[j].id, p, n - 1) && Within(was, p, items[j].id);
        assert items[..k][j] == items[j] && p in was;
        assert Hit(was, items, k, p);
      }
    }
  }

  // ---------- moving ----------

  predicate StaysOrUncached(tree: Tree, left: Listings, obj: Obj, target: Id) {
    obj.id in tree && (tree[obj.id].parent == target || (tree[obj.id].parent !in left && target !in left))
  }

  /** Moving any objects and forgetting any listings: right exactly when each object stayed in its directory,
      or neither that nor the target is cached any more. */
  lemma MoveKeepsIff(cached: Listings, forgotten: set<Id>, tree: Tree, items: seq<Obj>, target: Id)
    requires WellFormed(tree) && Coherent(cached, tree) && IsDir(tree, target) && AllThere(tree, items)
    ensures var left := cached - forgotten;
            Coherent(left, MoveAll(tree, items, target)) <==>
            forall k :: 0 <= k < |items| ==> StaysOrUncached(tree, left, items[k], target)
  {
    var left, tree' := cached - forgotten, MoveAll(tree, items, target);
    ForgetDoubtful(cached, tree, {}, forgotten);
    if forall k :: 0 <= k < |items| ==> StaysOrUncached(tree, left, items[k], target) {
      forall d | d in left ensures Fits(left, tree', d) {
        SameChildren(left, tree, items, target, d);
        assert Fits(left, tree, d);
        MoveKeepsDirs(tree, items, target, d);
      }
    } else {
      var k :| 0 <= k < |items| && !StaysOrUncached(tree, left, items[k], target);
      MovedItemSpoils(left, tree, items, target, k);
    }
  }

  /** quark moves a list of objects in one request: right exactly when each stayed in its directory, or
      neither that nor the target was cached, but for those that are themselves in the list as directories. */
  lemma QuarkMoveKeepsIff(cached: Listings, tree: Tree, items: seq<Obj>, target: Id)
    requires WellFormed(tree) && Coherent(cached, tree) && IsDir(tree, target) && AllThere(tree, items)
    ensures Coherent(cached - ReloadDirIds(items, false), MoveAll(tree, items, target)) <==>
            forall k :: 0 <= k < |items| ==> var p := tree[items[k].id].parent;
              p == target || ((p !in cached || IsDirOf(items, p)) && (target !in cached || IsDirOf(items, target)))
  {
    var forgotten := ReloadDirIds(items, false);
    MoveKeepsIff(cached, forgotten, tree, items, target);
    ForgottenIff(items, false, target);
    forall k | 0 <= k < |items|
      ensures var p := tree[items[k].id].parent;
              StaysOrUncached(tree, cached - forgotten, items[k], target) <==>
              p == target || ((p !in cached || IsDirOf(items, p)) && (target !in cached || IsDirOf(items, target)))
    {
      ForgottenIff(items, false, tree[items[k].id].parent);
    }
  }

  /** Files alone make it forget nothing. */
  lemma QuarkMoveFilesIff(cached: Listings, tree: Tree, items: seq<Obj>, target: Id)
    requires WellFormed(tree) && Coherent(cached, tree) && IsDir(tree, target) && AllThere(tree, items)
    requires forall k :: 0 <= k < |items| ==> items[k].kind == File
    ensures ReloadDirIds(items, false) == {}
    ensures Coherent(cached, MoveAll(tree, items, target)) <==>
            forall k :: 0 <= k < |items| ==> StaysOrUncached(tree, cached, items[k], target)
  {
    forall x ensures x !in ReloadDirIds(items, false) {
      ForgottenIff(items, false, x);
    }
    MoveKeepsIff(cached, {}, tree, items, target);
    assert cached - {} == cached;
  }

  /** Moving one file out of a listed directory leaves it in that listing. */
  lemma QuarkMovesOneFile(parent: Id, id: Id, name: string)
    returns (cached: Listings, tree: Tree, items: seq<Obj>)
    requires parent != ROOT && id != ROOT && id != parent
    ensures WellFormed(tree) && Coherent(cached, tree) && cached == map[parent := [Item(id, name, File)]]
    ensures items == [Obj(id, name, File, At(parent))] && IsHandle(tree, items[0])
    ensures cached - ReloadDirIds(items, false) == cached && !Coherent(cached, MoveAll(tree, items, ROOT))
  {
    cached, tree := OneInside(parent, id, name, File);
    items := [Obj(id, name, File, At(parent))];
    QuarkMoveFilesIff(cached, tree, items, ROOT);
    assert !StaysOrUncached(tree, cached, items[0], ROOT);
  }

  /** A move that stops half-way forgets nothing (DirectoryDriver.Driver.Move returns early). */
  lemma PartialMoveKeepsIff(cached: Listings, tree: Tree, moved: seq<Obj>, target: Id)
    requires WellFormed(tree) && Coherent(cached, tree) && IsDir(tree, target) && AllThere(tree, moved)
    ensures Coherent(cached, MoveAll(tree, moved, target)) <==>
            forall k :: 0 <= k < |moved| ==> StaysOrUncached(tree, cached, moved[k], target)
  {
    MoveKeepsIff(cached, {}, tree, moved, target);
    assert cached - {} == cached;
  }

  lemma MoveKeepsDirs(tree: Tree, moved: seq<Obj>, target: Id, d: Id)
    requires AllThere(tree, moved)
    ensures IsDir(MoveAll(tree, moved, target), d) <==> IsDir(tree, d)
  {
    if d in tree { MoveAllParents(tree, moved, target, d); }
  }

  lemma SameChildren(cached: Listings, tree: Tree, moved: seq<Obj>, target: Id, d: Id)
    requires d in cached && AllThere(tree, moved)
    requires forall k :: 0 <= k < |moved| ==> StaysOrUncached(tree, cached, moved[k], target)
    ensures forall item :: IsChild(MoveAll(tree, moved, target), d, item) <==> IsChild(tree, d, item)
  {
    forall item ensures IsChild(MoveAll(tree, moved, target), d, item) <==> IsChild(tree, d, item) {
      if item.id in tree {
        MoveAllParents(tree, moved, target, item.id);
        if k :| 0 <= k < |moved| && moved[k].id == item.id {
          assert StaysOrUncached(tree, cached, moved[k], target);
        }
      }
    }
  }

  lemma MovedItemSpoils(cached: Listings, tree: Tree, moved: seq<Obj>, target: Id, k: nat)
    requires WellFormed(tree) && Coherent(cached, tree) && IsDir(tree, target) && AllThere(tree, moved)
    requires k < |moved| && !StaysOrUncached(tree, cached, moved[k], target)
    ensures !Coherent(cached, MoveAll(tree, moved, target))
  {
    var tree' := MoveAll(tree, moved, target);
    var id := moved[k].id;
    var node := tree[id];
    var item := Item(id, node.name, node.kind);
    MoveAllParents(tree, moved, target, id);
    assert tree'[id] == Node(target, node.name, node.kind);
    var d := if node.parent in cached then node.parent else target;
    assert Fits(cached, tree, d);
    MoveKeepsDirs(tree, moved, target, d);
    assert IsChild(tree, node.parent, item) && IsChild(tree', target, item);
    ListingSpoiled(cached, tree', d, item);
  }

  // ---------- making directories ----------

  lemma {:induction false} FirstMadeStays(tree: Tree, under: Id, names: seq<string>, ids: seq<Option<Id>>, k: nat)
    requires |names| == |ids| && 0 < k <= |ids| && (forall j :: 0 <= j < k ==> ids[j].Some?)
    requires forall j :: 0 < j < k ==> ids[j] != ids[0]
    ensures ids[0].value in Chain(tree, under, names, ids, k)
    ensures Chain(tree, under, names, ids, k)[ids[0].value] == Node(under, names[0], Dir)
  {
    if k > 1 { FirstMadeStays(tree, under, names, ids, k - 1); }
  }

  /** Making a path that stops half-way forgets nothing (DirectoryDriver.Driver.MkdirBelow returns early):
      right exactly when nothing was made, or the directory above the first one made is not cached. */
  lemma PartialMkdirKeepsIff(cached: Listings, was: Tree, under: Id, names: seq<string>, newIds: seq<Option<Id>>,
                             k: nat, tree: Tree)
    requires k <= |names| == |newIds| && MadeSoFar(cached, was, under, names, newIds, k, tree)
    requires WellFormed(was) && Coherent(cached, was) && IsDir(was, under)
    requires NewIds(was, cached, newIds)
    ensures Coherent(cached, tree) <==> k == 0 || under !in cached
  {
    if k > 0 && under in cached {
      assert IsNew(was, cached, newIds, 0);
      forall j | 0 < j < k ensures newIds[j] != newIds[0] {
        assert IsNew(was, cached, newIds, j) && newIds[..j][0] == newIds[0];
      }
      FirstMadeStays(was, under, names, newIds, k);
      var item := Item(newIds[0].value, names[0], Dir);
      assert Fits(cached, was, under);
      assert !IsChild(was, under, item) && IsChild(tree, under, item);
      assert IsDir(tree, under);
      ListingSpoiled(cached, tree, under, item);
    } else if k > 0 {
      ForgetDoubtful(cached, tree, {under}, {under});
      assert cached - {under} == cached && {under} - {under} == {};
    }
  }
}
