/** Listings cached under the path of their directory (baidu_netdisk), against the tree on the server. */
module PathCache {
  import opened Basics
  import opened BatchRename

  type Path = seq<string>

  /** A listing, as the set of its objects. */
  function Shown(kids: seq<Node>, path: Path): set<Object> {
    set k | 0 <= k < |kids| :: ObjectOf(kids[k], path)
  }

  /** What listing a path gives, if there is a directory. */
  function Listed(root: seq<Node>, path: Path): Option<set<Object>> {
    var at := KidsAt(root, path);
    if at.None? then None else Some(Shown(at.value, path))
  }

  type Listings = map<Path, set<Object>>

  ghost predicate Fits(cached: Listings, root: seq<Node>, path: Path)
    requires path in cached
  {
    Listed(root, path).Some? ==> cached[path] == Listed(root, path).value
  }

  /** Every listing under the path of a directory that is there shows it. */
  ghost predicate Coherent(cached: Listings, root: seq<Node>) {
    forall path {:trigger Fits(cached, root, path)} :: path in cached ==> Fits(cached, root, path)
  }

  // ---------- what a change at one path does to the others ----------

  lemma {:induction false} PutInside(root: seq<Node>, path: Path, kids: seq<Node>, below: Path)
    requires KidsAt(root, path).Some?
    ensures KidsAt(Put(root, path, kids), path + below) == KidsAt(kids, below)
    decreases |path|
  {
    if path == [] {
      assert path + below == below;
    } else {
      var i := IndexOf(root, path[0]);
      SameNames(root, Put(root, path, kids), path[0]);
      PutInside(root[i].kids, path[1..], kids, below);
      assert (path + below)[1..] == path[1..] + below;
    }
  }

  /** Nodes with the same names, ids and kinds, whatever is below them. */
  predicate Alike(a: seq<Node>, b: seq<Node>) {
    |a| == |b| && forall k :: 0 <= k < |a| ==> a[k].name == b[k].name && a[k].id == b[k].id && a[k].Dir? == b[k].Dir?
  }

  lemma AlikeShown(a: seq<Node>, b: seq<Node>, path: Path)
    requires Alike(a, b)
    ensures Shown(a, path) == Shown(b, path)
  {
    assert forall k :: 0 <= k < |a| ==> ObjectOf(a[k], path) == ObjectOf(b[k], path);
  }

  predicate AlikeAt(root: seq<Node>, root': seq<Node>, path: Path) {
    var at, at' := KidsAt(root, path), KidsAt(root', path);
    at.Some? == at'.Some? && (at.Some? ==> Alike(at.value, at'.value))
  }

  /** Directories above the change and beside it list as before. */
  lemma {:induction false} PutOutside(root: seq<Node>, path: Path, kids: seq<Node>, other: Path)
    requires KidsAt(root, path).Some? && !(path <= other)
    ensures AlikeAt(root, Put(root, path, kids), other)
    decreases |path|
  {
    if other != [] {
      var i := IndexOf(root, path[0]);
      SameNames(root, Put(root, path, kids), other[0]);
      if IndexOf(root, other[0]) == i {
        PutOutside(root[i].kids, path[1..], kids, other[1..]);
      }
    }
  }

  // ---------- renaming ----------

  lemma IndexAfter(kids: seq<Node>, i: nat, newName: string, name: string)
    requires Distinct(kids) && i < |kids| && newName != kids[i].name && !Taken(kids, i, newName)
    ensures IndexOf(kids[i := kids[i].(name := newName)], name)
            == if name == newName then i else if name == kids[i].name then |kids| else IndexOf(kids, name)
  {
    var kids' := kids[i := kids[i].(name := newName)];
    var j, j' := IndexOf(kids, name), IndexOf(kids', name);
    assert kids'[i].name == newName && forall k :: 0 <= k < |kids| && k != i ==> kids'[k] == kids[k];
    NotTaken(kids, i);
    if name == newName {
      assert j' <= i;
    } else if name != kids[i].name {
      assert j < |kids| ==> kids'[j].name == name;
      assert j' < |kids| ==> kids[j'].name == name;
    }
  }

  /** In the directory of the renamed node: its contents are found under the new name, nothing under the
      old one, and everything else where it was. */
  lemma RenamedBelow(kids: seq<Node>, i: nat, newName: string, name: string, below: Path)
    requires Distinct(kids) && i < |kids| && newName != kids[i].name && !Taken(kids, i, newName)
    ensures KidsAt(kids[i := kids[i].(name := newName)], [name] + below)
            == if name == newName then KidsAt(kids, [kids[i].name] + below)
               else if name == kids[i].name then None
               else KidsAt(kids, [name] + below)
  {
    var was := kids[i].name;
    IndexAfter(kids, i, newName, name);
    assert ([name] + below)[1..] == below && ([was] + below)[1..] == below;
    assert IndexOf(kids, kids[i].name) == i;
  }

  /** A listing left under the new name from an earlier time is right for what is there after the renaming. */
  ghost predicate LeftIsRight(cached: Listings, root: seq<Node>, op: Op, below: Path) {
    var path, was := op.path + ([op.newName] + below), op.path + ([op.name] + below);
    path in cached && KidsAt(root, was).Some? ==> cached[path] == Shown(KidsAt(root, was).value, path)
  }

  lemma KidsBelow(root: seq<Node>, path: Path, below: Path)
    requires KidsAt(root, path).Some?
    ensures KidsAt(root, path + below) == KidsAt(KidsAt(root, path).value, below)
  {
    var kids := KidsAt(root, path).value;
    PutLaws(root, path, kids, kids);
    PutInside(root, path, kids, below);
  }

  /** One cached path after the renaming. */
  lemma FitsAfterRename(cached: Listings, root: seq<Node>, op: Op, root': seq<Node>, path: Path)
    requires Coherent(cached, root) && KidsAt(root, op.path).Some? && Distinct(KidsAt(root, op.path).value)
    requires op.name != op.newName && Rename(root, op) == Some(root') && path in cached && path != op.path
    ensures if op.path <= path && path[|op.path|] == op.newName
            then Fits(cached, root', path) <==> LeftIsRight(cached, root, op, path[|op.path| + 1..])
            else Fits(cached, root', path)
  {
    var kids := KidsAt(root, op.path).value;
    var i := IndexOf(kids, op.name);
    var kids' := kids[i := kids[i].(name := op.newName)];
    assert Fits(cached, root, path);
    if op.path <= path {
      var name, below := path[|op.path|], path[|op.path| + 1..];
      assert path == op.path + ([name] + below);
      RenamedBelow(kids, i, op.newName, name, below);
      PutInside(root, op.path, kids', [name] + below);
      KidsBelow(root, op.path, [name] + below);
      KidsBelow(root, op.path, [op.name] + below);
    } else {
      PutOutside(root, op.path, kids', path);
      if KidsAt(root, path).Some? { AlikeShown(KidsAt(root, path).value, KidsAt(root', path).value, path); }
    }
  }

  /** A renaming forgets only the listing of the directory it happens in. That is enough exactly when each
      listing still held under the new name, from something that had the name before, is right for the
      directory that has it now. */
  lemma RenameKeepsPathsIff(cached: Listings, root: seq<Node>, op: Op, root': seq<Node>)
    requires Coherent(cached, root) && KidsAt(root, op.path).Some? && Distinct(KidsAt(root, op.path).value)
    requires op.name != op.newName && Rename(root, op) == Some(root')
    ensures Coherent(cached - {op.path}, root') <==>
            forall below {:trigger LeftIsRight(cached, root, op, below)} :: LeftIsRight(cached, root, op, below)
  {
    var left := cached - {op.path};
    forall below | Coherent(left, root') ensures LeftIsRight(cached, root, op, below) {
      var path := op.path + ([op.newName] + below);
      if path in cached {
        assert path[|op.path| + 1..] == below && op.path <= path;
        FitsAfterRename(cached, root, op, root', path);
        assert Fits(left, root', path);
      }
    }
    if forall below :: LeftIsRight(cached, root, op, below) {
      forall path | path in left ensures Fits(left, root', path) {
        FitsAfterRename(cached, root, op, root', path);
        if op.path <= path { assert LeftIsRight(cached, root, op, path[|op.path| + 1..]); }
      }
    }
  }

  /** In particular it is enough when no listing is held at or below the new name. */
  lemma NothingHeldThere(cached: Listings, root: seq<Node>, op: Op, root': seq<Node>)
    requires Coherent(cached, root) && KidsAt(root, op.path).Some? && Distinct(KidsAt(root, op.path).value)
    requires op.name != op.newName && Rename(root, op) == Some(root')
    requires forall path :: path in cached ==> !(op.path + [op.newName] <= path)
    ensures Coherent(cached - {op.path}, root')
  {
    forall below ensures LeftIsRight(cached, root, op, below) {
      assert op.path + ([op.newName] + below) == op.path + [op.newName] + below;
    }
    RenameKeepsPathsIff(cached, root, op, root');
  }

  /** Two renamings, both accepted, after which a listing is wrong: a was listed and renamed to b, and
      then c, which is empty, to a. */
  lemma OldNameShowsThrough(a: string, b: string, c: string, x: Node)
    requires a != b && b != c && a != c
    ensures var root := [Dir(a, 1, [x]), Dir(c, 2, [])];
            var cached := map[[a] := Shown([x], [a])];
            var r1 := Rename(root, Op([], a, b));
            && Coherent(cached, root) && r1.Some? && Coherent(cached - {[]}, r1.value)
            && var r2 := Rename(r1.value, Op([], c, a));
            && r2.Some? && !Coherent(cached - {[]} - {[]}, r2.value)
  {
    var root := [Dir(a, 1, [x]), Dir(c, 2, [])];
    var root1 := [Dir(b, 1, [x]), Dir(c, 2, [])];
    var root2 := [Dir(b, 1, [x]), Dir(a, 2, [])];
    TwoDirs(a, c, [x], []);
    TwoDirs(b, c, [x], []);
    TwoDirs(b, a, [x], []);
    var cached: Listings := map[[a] := Shown([x], [a])];
    assert cached - {[]} == cached;
    assert root[0 := Dir(b, 1, [x])] == root1 && root1[1 := Dir(a, 2, [])] == root2;
    assert !Taken(root, 0, b) && !Taken(root1, 1, a);
    OneName(root, a);
    OneName(root1, a);
    OneName(root2, a);
    assert IndexOf(root, a) == 0 && IndexOf(root1, a) == 2 && IndexOf(root2, a) == 1;
    assert ObjectOf(x, [a]) in cached[[a]] by { assert [x][0] == x; }
    assert !Fits(cached, root2, [a]);
  }

  lemma OneName(root: seq<Node>, name: string)
    ensures var i := IndexOf(root, name);
            KidsAt(root, [name]) == if i < |root| && root[i].Dir? then Some(root[i].kids) else None
  {
    assert [name][1..] == [];
  }

  lemma TwoDirs(a: string, b: string, k: seq<Node>, l: seq<Node>)
    requires a != b
    ensures var kids := [Dir(a, 1, k), Dir(b, 2, l)];
            forall name :: IndexOf(kids, name) == if name == a then 0 else if name == b then 1 else 2
  {
    var kids := [Dir(a, 1, k), Dir(b, 2, l)];
    assert kids[1..] == [Dir(b, 2, l)];
  }

  // ---------- making, deleting, moving ----------

  /** A node added to the directory at a path. The server refuses a path that is no directory, and a name
      that is taken. */
  function Inserted(root: seq<Node>, path: Path, node: Node): Option<seq<Node>> {
    var at := KidsAt(root, path);
    if at.None? || Has(at.value, node.name) then None else Some(Put(root, path, at.value + [node]))
  }

  /** An object taken out of the directory at a path. */
  function Removed(root: seq<Node>, path: Path, name: string): Option<seq<Node>> {
    var at := KidsAt(root, path);
    if at.None? || IndexOf(at.value, name) == |at.value| then None
    else Some(Put(root, path, Without(at.value, name)))
  }

  function Without(kids: seq<Node>, name: string): seq<Node> {
    var i := IndexOf(kids, name);
    if i == |kids| then kids else kids[..i] + kids[i + 1..]
  }

  /** What is at the first name of a path below a directory. */
  function Down(kids: seq<Node>, name: string, below: Path): Option<seq<Node>> {
    var i := IndexOf(kids, name);
    if i < |kids| && kids[i].Dir? then KidsAt(kids[i].kids, below) else None
  }

  lemma DownIs(kids: seq<Node>, name: string, below: Path)
    ensures KidsAt(kids, [name] + below) == Down(kids, name, below)
  {
    assert ([name] + below)[1..] == below;
  }

  lemma {:induction false} IndexAfterInsert(kids: seq<Node>, node: Node, name: string)
    requires !Has(kids, node.name)
    ensures IndexOf(kids + [node], name)
            == if name == node.name then |kids|
               else if IndexOf(kids, name) < |kids| then IndexOf(kids, name) else |kids| + 1
  {
    var i, j := IndexOf(kids, name), IndexOf(kids + [node], name);
    assert forall k :: 0 <= k < |kids| ==> (kids + [node])[k] == kids[k];
    assert (kids + [node])[|kids|] == node;
  }

  lemma WithoutIsFrom(kids: seq<Node>, gone: string)
    ensures var i, rest := IndexOf(kids, gone), Without(kids, gone);
            && |rest| == (if i < |kids| then |kids| - 1 else |kids|)
            && (forall j :: 0 <= j < i ==> rest[j] == kids[j])
            && (forall j :: i <= j < |rest| ==> rest[j] == kids[j + 1])
  {
  }

  /** Where a node that is left was. */
  function Before(kids: seq<Node>, gone: string, j: nat): nat {
    if j < IndexOf(kids, gone) then j else j + 1
  }

  lemma OneLeft(kids: seq<Node>, gone: string, j: nat)
    requires Distinct(kids) && j < |Without(kids, gone)|
    ensures var k := Before(kids, gone, j);
            && k < |kids| && k != IndexOf(kids, gone) && Without(kids, gone)[j] == kids[k]
            && IndexOf(kids, kids[k].name) == k
  {
    WithoutIsFrom(kids, gone);
  }

  /** What is left is found where it is. */
  lemma LeftInPlace(kids: seq<Node>, gone: string, j: nat)
    requires Distinct(kids) && j < |Without(kids, gone)|
    ensures IndexOf(Without(kids, gone), Without(kids, gone)[j].name) == j
  {
    var i := IndexOf(Without(kids, gone), Without(kids, gone)[j].name);
    OneLeft(kids, gone, j);
    OneLeft(kids, gone, i);
  }

  lemma FoundWithout(kids: seq<Node>, gone: string, name: string)
    requires Distinct(kids)
    ensures var rest := Without(kids, gone);
            var i, j := IndexOf(kids, name), IndexOf(rest, name);
            if name == gone then j == |rest|
            else (j < |rest| <==> i < |kids|) && (i < |kids| && j < |rest| ==> rest[j] == kids[i])
  {
    var rest := Without(kids, gone);
    var i, j, g := IndexOf(kids, name), IndexOf(rest, name), IndexOf(kids, gone);
    if j < |rest| { OneLeft(kids, gone, j); }
    if i < |kids| && name != gone {
      WithoutIsFrom(kids, gone);
      var l := if i < g then i else i - 1;
      assert rest[l] == kids[i];
      LeftInPlace(kids, gone, l);
    }
  }

  lemma DownWithout(kids: seq<Node>, gone: string, name: string, below: Path)
    requires Distinct(kids)
    ensures Down(Without(kids, gone), name, below) == if name == gone then None else Down(kids, name, below)
  {
    FoundWithout(kids, gone, name);
  }

  /** A listing is as right as before when what is below its path is. */
  lemma FitsAfterPut(cached: Listings, root: seq<Node>, path: Path, kids': seq<Node>, other: Path)
    requires KidsAt(root, path).Some? && other in cached && other != path
    requires path < other ==>
               var (name, below) := (other[|path|], other[|path| + 1..]);
               Down(kids', name, below) == Down(KidsAt(root, path).value, name, below)
    ensures Fits(cached, Put(root, path, kids'), other) <==> Fits(cached, root, other)
  {
    var root' := Put(root, path, kids');
    if path < other {
      BelowPut(root, path, kids', other);
    } else {
      assert path <= other ==> other == path;
      PutOutside(root, path, kids', other);
      if KidsAt(root, other).Some? { AlikeShown(KidsAt(root, other).value, KidsAt(root', other).value, other); }
    }
  }

  lemma BelowPut(root: seq<Node>, path: Path, kids': seq<Node>, other: Path)
    requires KidsAt(root, path).Some? && path < other
    ensures var (name, below) := (other[|path|], other[|path| + 1..]);
            && KidsAt(Put(root, path, kids'), other) == Down(kids', name, below)
            && KidsAt(root, other) == Down(KidsAt(root, path).value, name, below)
  {
    var name, below := other[|path|], other[|path| + 1..];
    assert other == path + ([name] + below);
    PutInside(root, path, kids', [name] + below);
    KidsBelow(root, path, [name] + below);
    DownIs(kids', name, below);
    DownIs(KidsAt(root, path).value, name, below);
  }

  /** A listing left under the path of a new node, from something that was there before, is right for it. */
  ghost predicate LeftFits(cached: Listings, path: Path, node: Node, below: Path) {
    var other := path + ([node.name] + below);
    other in cached && node.Dir? && KidsAt(node.kids, below).Some? ==>
      cached[other] == Shown(KidsAt(node.kids, below).value, other)
  }

  ghost predicate AllLeftFit(cached: Listings, path: Path, node: Node) {
    forall below {:trigger LeftFits(cached, path, node, below)} :: LeftFits(cached, path, node, below)
  }

  /** Adding a node keeps the listings right exactly when the directory's own is not held and each one left
      under the node's path is right for it. */
  lemma InsertKeepsIff(cached: Listings, root: seq<Node>, path: Path, node: Node, root': seq<Node>)
    requires Coherent(cached, root) && Inserted(root, path, node) == Some(root')
    ensures Coherent(cached, root') <==> path !in cached && AllLeftFit(cached, path, node)
  {
    var kids := KidsAt(root, path).value;
    if path in cached {
      NewIsNotShown(root, path, node, root');
      assert Fits(cached, root, path);
      assert !Fits(cached, root', path);
    } else {
      forall other | other in cached
        ensures if path < other && other[|path|] == node.name
                then Fits(cached, root', other) <==> LeftFits(cached, path, node, other[|path| + 1..])
                else Fits(cached, root', other)
      {
        FitsAfterInsert(cached, root, path, node, root', other);
      }
      forall below | Coherent(cached, root') ensures LeftFits(cached, path, node, below) {
        var other := path + ([node.name] + below);
        if other in cached {
          assert Fits(cached, root', other) && path < other && other[|path|] == node.name;
          assert other[|path| + 1..] == below;
        }
      }
      if forall below :: LeftFits(cached, path, node, below) {
        forall other | other in cached ensures Fits(cached, root', other) {
          assert other != path;
          if path < other { assert LeftFits(cached, path, node, other[|path| + 1..]); }
        }
      }
    }
  }

  lemma NewIsNotShown(root: seq<Node>, path: Path, node: Node, root': seq<Node>)
    requires Inserted(root, path, node) == Some(root')
    ensures Listed(root', path).Some? && Listed(root', path) != Listed(root, path)
  {
    var kids := KidsAt(root, path).value;
    PutLaws(root, path, kids + [node], []);
    var added := ObjectOf(node, path);
    assert (kids + [node])[|kids|] == node;
    assert added in Shown(kids + [node], path);
    assert forall k :: 0 <= k < |kids| ==> kids[k].name != node.name;
  }

  lemma FitsAfterInsert(cached: Listings, root: seq<Node>, path: Path, node: Node, root': seq<Node>, other: Path)
    requires Coherent(cached, root) && Inserted(root, path, node) == Some(root') && other in cached && other != path
    ensures if path < other && other[|path|] == node.name
            then Fits(cached, root', other) <==> LeftFits(cached, path, node, other[|path| + 1..])
            else Fits(cached, root', other)
  {
    var kids := KidsAt(root, path).value;
    assert Fits(cached, root, other);
    if path < other {
      var name, below := other[|path|], other[|path| + 1..];
      IndexAfterInsert(kids, node, name);
      assert forall k :: 0 <= k < |kids| ==> (kids + [node])[k] == kids[k];
      if name == node.name {
        BelowPut(root, path, kids + [node], other);
        assert other == path + ([name] + below);
      } else {
        FitsAfterPut(cached, root, path, kids + [node], other);
      }
    } else {
      FitsAfterPut(cached, root, path, kids + [node], other);
    }
  }

  /** Making a directory forgets nothing (baidu_netdisk): right exactly when the listing it is in is not held
      and none that is not empty is held under its path. */
  lemma MkdirKeepsPathsIff(cached: Listings, root: seq<Node>, path: Path, name: string, id: nat, root': seq<Node>)
    requires Coherent(cached, root) && Inserted(root, path, Dir(name, id, [])) == Some(root')
    ensures Coherent(cached, root') <==> path !in cached && (path + [name] in cached ==> cached[path + [name]] == {})
  {
    var node := Dir(name, id, []);
    var none: seq<Node> := [];
    InsertKeepsIff(cached, root, path, node, root');
    assert path + ([name] + []) == path + [name];
    assert LeftFits(cached, path, node, []) <==> (path + [name] in cached ==> cached[path + [name]] == {}) by {
      assert KidsAt(none, []) == Some(none) && Shown(none, path + [name]) == {};
    }
    forall below | below != [] ensures LeftFits(cached, path, node, below) {
      assert KidsAt(none, below) == None;
    }
  }

  /** Taking an object out and forgetting the listing of its directory keeps the others right. */
  lemma RemoveKeepsPaths(cached: Listings, root: seq<Node>, path: Path, name: string, root': seq<Node>)
    requires Coherent(cached, root) && UniqueNames(root) && Removed(root, path, name) == Some(root')
    ensures Coherent(cached - {path}, root')
  {
    var kids := KidsAt(root, path).value;
    UniqueBelow(root, path);
    var left := cached - {path};
    forall other | other in left ensures Fits(left, root', other) {
      assert Fits(cached, root, other);
      if path < other {
        DownWithout(kids, name, other[|path|], other[|path| + 1..]);
        BelowPut(root, path, Without(kids, name), other);
      } else {
        FitsAfterPut(cached, root, path, Without(kids, name), other);
      }
    }
  }

  /** What taking an object out leaves: in its directory the others, each as it was and in the same order, and
      elsewhere the same names, ids and kinds. */
  lemma RemovedIs(root: seq<Node>, path: Path, name: string, root': seq<Node>, other: Path)
    requires UniqueNames(root) && Removed(root, path, name) == Some(root')
    ensures KidsAt(root', path).Some?
    ensures var kids, kids' := KidsAt(root, path).value, KidsAt(root', path).value;
            var i := IndexOf(kids, name);
            && i < |kids| && kids' == kids[..i] + kids[i + 1..] && !Has(kids', name)
    ensures !(path <= other) ==> AlikeAt(root, root', other)
  {
    var kids := KidsAt(root, path).value;
    UniqueBelow(root, path);
    PutLaws(root, path, Without(kids, name), kids);
    FoundWithout(kids, name, name);
    if Has(Without(kids, name), name) { IndexIsThere(Without(kids, name), name); }
    if !(path <= other) { PutOutside(root, path, Without(kids, name), other); }
  }

  lemma {:induction false} IndexIsThere(kids: seq<Node>, name: string)
    requires Has(kids, name)
    ensures IndexOf(kids, name) < |kids|
  {
    var k :| 0 <= k < |kids| && kids[k].name == name;
    assert IndexOf(kids, name) <= k || IndexOf(kids, name) > k;
  }

  // ---------- lists of objects ----------

  /** What a request names: a directory by its path, and an object in it. */
  datatype Item = Item(path: Path, name: string)

  function PathsOf(items: seq<Item>): set<Path> {
    set k | 0 <= k < |items| :: items[k].path
  }

  function RemovedAll(root: seq<Node>, items: seq<Item>): Option<seq<Node>>
    decreases |items|
  {
    if items == [] then Some(root)
    else
      var r := Removed(root, items[0].path, items[0].name);
      if r.None? then None else RemovedAll(r.value, items[1..])
  }

  lemma UniqueWithout(kids: seq<Node>, gone: string)
    requires UniqueNames(kids)
    ensures UniqueNames(Without(kids, gone))
  {
    var rest := Without(kids, gone);
    forall j | 0 <= j < |rest|
      ensures IndexOf(rest, rest[j].name) == j && (rest[j].Dir? ==> UniqueNames(rest[j].kids))
    {
      OneLeft(kids, gone, j);
      LeftInPlace(kids, gone, j);
    }
  }

  lemma {:induction false} UniqueAfterPut(root: seq<Node>, path: Path, kids: seq<Node>)
    requires UniqueNames(root) && KidsAt(root, path).Some? && UniqueNames(kids)
    ensures UniqueNames(Put(root, path, kids))
    decreases |path|
  {
    if path != [] {
      var i := IndexOf(root, path[0]);
      var root' := Put(root, path, kids);
      UniqueAfterPut(root[i].kids, path[1..], kids);
      forall j | 0 <= j < |root'| ensures IndexOf(root', root'[j].name) == j {
        assert IndexOf(root, root[j].name) == j;
        SameNames(root, root', root[j].name);
      }
    }
  }

  /** Deleting a list of objects and forgetting the listings they are in, as the driver does, always keeps the
      others right. */
  lemma {:induction false} DeleteKeepsPaths(cached: Listings, root: seq<Node>, items: seq<Item>, root': seq<Node>)
    requires Coherent(cached, root) && UniqueNames(root) && RemovedAll(root, items) == Some(root')
    ensures Coherent(cached - PathsOf(items), root')
    decreases |items|
  {
    if items == [] {
      assert cached - PathsOf(items) == cached;
    } else {
      var item, rest := items[0], items[1..];
      var mid := Removed(root, item.path, item.name).value;
      RemoveKeepsPaths(cached, root, item.path, item.name, mid);
      UniqueBelow(root, item.path);
      UniqueWithout(KidsAt(root, item.path).value, item.name);
      UniqueAfterPut(root, item.path, Without(KidsAt(root, item.path).value, item.name));
      DeleteKeepsPaths(cached - {item.path}, mid, rest, root');
      PathsOfRest(items);
      assert cached - {item.path} - PathsOf(rest) == cached - PathsOf(items);
    }
  }

  lemma PathsOfRest(items: seq<Item>)
    requires items != []
    ensures PathsOf(items) == {items[0].path} + PathsOf(items[1..])
  {
    forall p | p in PathsOf(items) ensures p in {items[0].path} + PathsOf(items[1..]) {
      var k :| 0 <= k < |items| && items[k].path == p;
      if k > 0 { assert items[1..][k - 1] == items[k]; }
    }
    forall p | p in PathsOf(items[1..]) ensures p in PathsOf(items) {
      var k :| 0 <= k < |items[1..]| && items[1..][k].path == p;
      assert items[k + 1].path == p;
    }
  }

  /** An object taken out of one directory and put into another under its name. */
  function Moved(root: seq<Node>, item: Item, target: Path): Option<seq<Node>> {
    var mid := Removed(root, item.path, item.name);
    if mid.None? then None
    else
      var kids := KidsAt(root, item.path).value;
      Inserted(mid.value, target, kids[IndexOf(kids, item.name)])
  }

  /** A moved object is the last one in the target, as it was, and no longer where it was. */
  lemma MovedIs(root: seq<Node>, item: Item, target: Path, root': seq<Node>)
    requires UniqueNames(root) && Moved(root, item, target) == Some(root')
    ensures KidsAt(root', target).Some? && KidsAt(root', target).value != []
    ensures var kids, kids' := KidsAt(root, item.path).value, KidsAt(root', target).value;
            var i := IndexOf(kids, item.name);
            && i < |kids| && kids'[|kids'| - 1] == kids[i]
            && (target == item.path ==> kids' == kids[..i] + kids[i + 1..] + [kids[i]])
    ensures target != item.path ==>
              KidsAt(root', item.path).Some? && !Has(KidsAt(root', item.path).value, item.name)
  {
    var mid := Removed(root, item.path, item.name).value;
    var kids := KidsAt(root, item.path).value;
    var node := kids[IndexOf(kids, item.name)];
    RemovedIs(root, item.path, item.name, mid, item.path);
    var there := KidsAt(mid, target).value;
    PutLaws(mid, target, there + [node], there);
    if target < item.path {
      FoundBesideInserted(mid, target, node, item.path);
    } else if target != item.path {
      PutOutside(mid, target, there + [node], item.path);
      AlikeNames(KidsAt(mid, item.path).value, KidsAt(root', item.path).value, item.name);
    }
  }

  /** What is below a directory is found as before when an object is added to that. */
  lemma FoundBesideInserted(root: seq<Node>, path: Path, node: Node, other: Path)
    requires KidsAt(root, path).Some? && !Has(KidsAt(root, path).value, node.name)
    requires path < other && KidsAt(root, other).Some?
    ensures KidsAt(Put(root, path, KidsAt(root, path).value + [node]), other) == KidsAt(root, other)
  {
    var kids, name, below := KidsAt(root, path).value, other[|path|], other[|path| + 1..];
    assert other == path + ([name] + below);
    KidsBelow(root, path, [name] + below);
    PutInside(root, path, kids + [node], [name] + below);
    DownIs(kids, name, below);
    DownIs(kids + [node], name, below);
    IndexAfterInsert(kids, node, name);
    assert kids[IndexOf(kids, name)].name == name;
  }

  lemma AlikeNames(a: seq<Node>, b: seq<Node>, name: string)
    requires Alike(a, b)
    ensures Has(a, name) <==> Has(b, name)
  {
    if Has(b, name) {
      var k :| 0 <= k < |b| && b[k].name == name;
      assert a[k].name == name;
    }
  }

  /** Moving an object and forgetting the listings of its directory and of the target, as the driver does: right
      exactly when each listing still held under the new path, from something that was there before, is right
      for what is there now. */
  lemma MoveKeepsPathsIff(cached: Listings, root: seq<Node>, item: Item, target: Path, root': seq<Node>)
    requires Coherent(cached, root) && UniqueNames(root) && Moved(root, item, target) == Some(root')
    ensures var kids := KidsAt(root, item.path).value;
            var node, left := kids[IndexOf(kids, item.name)], cached - {item.path, target};
            Coherent(left, root') <==> AllLeftFit(left, target, node)
  {
    var kids := KidsAt(root, item.path).value;
    var node, mid := kids[IndexOf(kids, item.name)], Removed(root, item.path, item.name).value;
    var left := cached - {item.path, target};
    RemoveKeepsPaths(cached, root, item.path, item.name, mid);
    forall path | path in left ensures Fits(left, mid, path) { assert Fits(cached - {item.path}, mid, path); }
    assert target !in left;
    InsertKeepsIff(left, mid, target, node, root');
  }
}
