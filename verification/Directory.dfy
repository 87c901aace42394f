/** The directory cache of the drivers against the tree on the server. Objects are known by id; the
    driver is the only one that changes the tree. */
module Directory {
  type Id = nat
  const ROOT: Id := 0

  datatype Kind = Dir | File

  datatype Node = Node(parent: Id, name: string, kind: Kind)

  /** The tree on the server, without its root. */
  type Tree = map<Id, Node>

  /** One line of a directory listing. */
  datatype Item = Item(id: Id, name: string, kind: Kind)

  predicate IsDir(tree: Tree, d: Id) {
    d == ROOT || (d in tree && tree[d].kind == Dir)
  }

  ghost predicate WellFormed(tree: Tree) {
    ROOT !in tree && forall i :: i in tree ==> IsDir(tree, tree[i].parent)
  }

  predicate IsChild(tree: Tree, d: Id, item: Item) {
    item.id in tree && tree[item.id] == Node(d, item.name, item.kind)
  }

  /** A listing that shows exactly what is in the directory, each object once. */
  ghost predicate Shows(listing: seq<Item>, tree: Tree, d: Id) {
    NoRepeats(listing) && forall item :: item in listing <==> IsChild(tree, d, item)
  }

  predicate NoRepeats(listing: seq<Item>) {
    forall i :: 0 <= i < |listing| ==> listing[i] !in listing[..i]
  }

  type Listings = map<Id, seq<Item>>

  /** Every cached listing of a live directory, but for those in except, shows it. */
  ghost predicate CoherentBut(cached: Listings, tree: Tree, except: set<Id>) {
    forall d {:trigger Fits(cached, tree, d)} :: d in cached && d !in except ==> Fits(cached, tree, d)
  }

  ghost predicate Fits(cached: Listings, tree: Tree, d: Id)
    requires d in cached
  {
    IsDir(tree, d) ==> Shows(cached[d], tree, d)
  }

  ghost predicate Coherent(cached: Listings, tree: Tree) {
    CoherentBut(cached, tree, {})
  }

  // ---------- what the server does ----------

  function Renamed(tree: Tree, id: Id, name: string): Tree
    requires id in tree
  {
    tree[id := tree[id].(name := name)]
  }

  function Created(tree: Tree, id: Id, parent: Id, name: string): Tree {
    tree[id := Node(parent, name, Dir)]
  }

  function Moved(tree: Tree, id: Id, target: Id): Tree
    requires id in tree
  {
    tree[id := tree[id].(parent := target)]
  }

  /** gone is the object and all below it. */
  ghost predicate IsSubtree(tree: Tree, id: Id, gone: set<Id>) {
    && id in gone && id in tree && gone <= tree.Keys
    && (forall x :: x in tree && tree[x].parent in gone ==> x in gone)
    && (forall x :: x in gone && x != id ==> tree[x].parent in gone)
  }

  function Deleted(tree: Tree, gone: set<Id>): Tree { tree - gone }

  /** id is n parents up from x. */
  predicate Above(tree: Tree, id: Id, x: Id, n: nat)
    decreases n
  {
    if n == 0 then x == id else x in tree && Above(tree, id, tree[x].parent, n - 1)
  }

  /** x is the object id or somewhere below it. */
  ghost predicate Within(tree: Tree, x: Id, id: Id) {
    exists n: nat :: Above(tree, id, x, n)
  }

  lemma ChildIsWithin(tree: Tree, x: Id, id: Id)
    requires x in tree && Within(tree, tree[x].parent, id)
    ensures Within(tree, x, id)
  {
    var n: nat :| Above(tree, id, tree[x].parent, n);
    assert Above(tree, id, x, n + 1);
  }

  /** A set with the object and all children of its members has all that is below the object. */
  lemma {:induction false} SubtreeHasAll(tree: Tree, id: Id, gone: set<Id>, x: Id, n: nat)
    requires id in gone && (forall y :: y in tree && tree[y].parent in gone ==> y in gone)
    requires Above(tree, id, x, n)
    ensures x in gone
    decreases n
  {
    if n > 0 { SubtreeHasAll(tree, id, gone, tree[x].parent, n - 1); }
  }

  /** In what is left of a tree, the same objects are above one that is left. */
  lemma {:induction false} AboveInRest(was: Tree, tree: Tree, id: Id, x: Id, n: nat)
    requires WellFormed(tree) && x in tree && tree.Keys <= was.Keys && forall i :: i in tree ==> tree[i] == was[i]
    requires ROOT !in was
    ensures Above(tree, id, x, n) <==> Above(was, id, x, n)
    decreases n
  {
    if n > 1 && tree[x].parent != ROOT {
      AboveInRest(was, tree, id, tree[x].parent, n - 1);
    }
  }

  /** An id the server has never given out, so nothing is cached under it. */
  predicate Unused(tree: Tree, cached: Listings, id: Id) {
    id != ROOT && id !in tree && id !in cached
  }

  // ---------- which listings a change can spoil ----------

  lemma RenameSpoilsParent(cached: Listings, tree: Tree, except: set<Id>, id: Id, name: string)
    requires WellFormed(tree) && CoherentBut(cached, tree, except) && id in tree
    ensures WellFormed(Renamed(tree, id, name))
    ensures CoherentBut(cached, Renamed(tree, id, name), except + {tree[id].parent})
  {
    var tree' := Renamed(tree, id, name);
    forall d | d in cached && d !in except + {tree[id].parent} ensures Fits(cached, tree', d) {
      assert Fits(cached, tree, d);
      forall item ensures IsChild(tree', d, item) <==> IsChild(tree, d, item) {
      }
    }
  }

  lemma CreateSpoilsParent(cached: Listings, tree: Tree, except: set<Id>, id: Id, parent: Id, name: string)
    requires WellFormed(tree) && CoherentBut(cached, tree, except)
    requires Unused(tree, cached, id) && IsDir(tree, parent)
    ensures WellFormed(Created(tree, id, parent, name))
    ensures CoherentBut(cached, Created(tree, id, parent, name), except + {parent})
  {
    var tree' := Created(tree, id, parent, name);
    forall d | d in cached && d !in except + {parent} ensures Fits(cached, tree', d) {
      assert Fits(cached, tree, d);
      forall item ensures IsChild(tree', d, item) <==> IsChild(tree, d, item) {
      }
    }
  }

  lemma MoveSpoilsBoth(cached: Listings, tree: Tree, except: set<Id>, id: Id, target: Id)
    requires WellFormed(tree) && CoherentBut(cached, tree, except) && id in tree && IsDir(tree, target)
    ensures WellFormed(Moved(tree, id, target))
    ensures CoherentBut(cached, Moved(tree, id, target), except + {tree[id].parent, target})
  {
    var tree' := Moved(tree, id, target);
    forall d | d in cached && d !in except + {tree[id].parent, target} ensures Fits(cached, tree', d) {
      assert Fits(cached, tree, d);
      forall item ensures IsChild(tree', d, item) <==> IsChild(tree, d, item) {
      }
    }
  }

  lemma DeleteSpoilsParent(cached: Listings, tree: Tree, except: set<Id>, id: Id, gone: set<Id>)
    requires WellFormed(tree) && CoherentBut(cached, tree, except) && IsSubtree(tree, id, gone)
    ensures WellFormed(Deleted(tree, gone))
    ensures CoherentBut(cached, Deleted(tree, gone), except + {tree[id].parent})
  {
    var tree' := Deleted(tree, gone);
    forall d | d in cached && d !in except + {tree[id].parent} ensures Fits(cached, tree', d) {
      assert Fits(cached, tree, d);
      if IsDir(tree', d) {
        forall item ensures IsChild(tree', d, item) <==> IsChild(tree, d, item) {
        }
      }
    }
  }

  /** Forgetting listings never hurts; forgetting the doubtful ones restores coherence. */
  lemma ForgetDoubtful(cached: Listings, tree: Tree, except: set<Id>, forgotten: set<Id>)
    requires CoherentBut(cached, tree, except)
    ensures CoherentBut(cached - forgotten, tree, except - forgotten)
  {
    var cached' := cached - forgotten;
    forall d | d in cached' && d !in except - forgotten ensures Fits(cached', tree, d) {
      assert Fits(cached, tree, d);
    }
  }

  lemma Remember(cached: Listings, tree: Tree, d: Id, listing: seq<Item>)
    requires Coherent(cached, tree) && Shows(listing, tree, d)
    ensures Coherent(cached[d := listing], tree)
  {
    var cached' := cached[d := listing];
    forall x | x in cached' ensures Fits(cached', tree, x) {
      if x != d { assert Fits(cached, tree, x); }
    }
  }
}
