/** Finding an object by its path through cached listings, and making the directories of a path: by
    recursion (cloudreve) or in one loop (aliyundrive_open). A path is the sequence of its names. */
module MakeDirectory {
  import opened Basics
  import opened Cache
  import opened Directory
  import opened DirectoryDriver
  import opened Invalidation

  predicate IsNamed(tree: Tree, d: Id, name: string, c: Id) {
    c in tree && tree[c].parent == d && tree[c].name == name
  }

  /** No two objects in one directory have the same name. */
  ghost predicate NamesUnique(tree: Tree) {
    forall a {:trigger OnlyOne(tree, a)} :: a in tree ==> OnlyOne(tree, a)
  }

  ghost predicate OnlyOne(tree: Tree, a: Id)
    requires a in tree
  {
    forall b :: IsNamed(tree, tree[a].parent, tree[a].name, b) ==> b == a
  }

  /** The objects on a path below d, as far as they exist. */
  ghost function WalkFrom(tree: Tree, d: Id, path: seq<string>): (ids: seq<Id>)
    ensures |ids| <= |path|
    decreases |path|
  {
    if path == [] then []
    else if c :| IsNamed(tree, d, path[0], c) then [c] + WalkFrom(tree, c, path[1..])
    else []
  }

  ghost function Walk(tree: Tree, path: seq<string>): (ids: seq<Id>)
    ensures |ids| <= |path|
  {
    WalkFrom(tree, ROOT, path)
  }

  function End(d: Id, ids: seq<Id>): Id {
    if ids == [] then d else ids[|ids| - 1]
  }

  /** The walk goes on through the one child of the name, or stops. */
  lemma WalkStep(tree: Tree, d: Id, path: seq<string>, c: Id)
    requires NamesUnique(tree) && path != [] && IsNamed(tree, d, path[0], c)
    ensures WalkFrom(tree, d, path) == [c] + WalkFrom(tree, c, path[1..])
  {
    var c' :| IsNamed(tree, d, path[0], c') && WalkFrom(tree, d, path) == [c'] + WalkFrom(tree, c', path[1..]);
    assert OnlyOne(tree, c);
  }

  /** What the end of a walk means: every object on it exists under its name, and the next name does not. */
  lemma {:induction false} WalkIs(tree: Tree, d: Id, path: seq<string>, k: nat)
    requires k < |path|
    ensures var ids := WalkFrom(tree, d, path);
            && (k < |ids| ==> IsNamed(tree, if k == 0 then d else ids[k - 1], path[k], ids[k]))
            && (k == |ids| ==> forall c :: !IsNamed(tree, End(d, ids), path[k], c))
    decreases k
  {
    var ids := WalkFrom(tree, d, path);
    if ids != [] {
      var c := ids[0];
      assert IsNamed(tree, d, path[0], c) && ids == [c] + WalkFrom(tree, c, path[1..]);
      assert End(c, ids[1..]) == End(d, ids);
      if k > 0 { WalkIs(tree, c, path[1..], k - 1); }
    }
  }

  // ---------- GetPanObj ----------

  /** The first object of a name. */
  method FindByName(objs: seq<Obj>, name: string) returns (found: Option<Obj>)
    ensures found.Some? ==> found.value in objs && found.value.name == name
    ensures found.None? ==> forall k :: 0 <= k < |objs| ==> objs[k].name != name
  {
    for k := 0 to |objs|
      invariant forall j :: 0 <= j < k ==> objs[j].name != name
    {
      if objs[k].name == name {
        return Some(objs[k]);
      }
    }
    found := None;
  }

  lemma FoundInListing(tree: Tree, d: Id, l: Listing, name: string, found: Option<Obj>)
    requires Shows(l.items, tree, d)
    requires found.Some? ==> found.value in ObjsOf(l) && found.value.name == name
    requires found.None? ==> forall k :: 0 <= k < |ObjsOf(l)| ==> ObjsOf(l)[k].name != name
    ensures found.Some? ==> IsNamed(tree, d, name, found.value.id) && found.value.kind == tree[found.value.id].kind
    ensures found.None? ==> forall c :: !IsNamed(tree, d, name, c)
  {
    if found.Some? {
      var k :| 0 <= k < |ObjsOf(l)| && ObjsOf(l)[k] == found.value;
      assert IsChild(tree, d, l.items[k]);
    } else {
      forall c ensures !IsNamed(tree, d, name, c) {
        if c in tree && tree[c].parent == d {
          assert IsChild(tree, d, Item(c, tree[c].name, tree[c].kind));
          var k :| 0 <= k < |l.items| && l.items[k] == Item(c, tree[c].name, tree[c].kind);
          assert ObjsOf(l)[k].name == l.items[k].name;
        }
      }
    }
  }

  const ROOT_OBJ: Obj := Obj(ROOT, "", Dir, Nil)

  /** Looks for a name in one directory, through the cache. failed: the directory was not cached and the
      server did not list it. */
  method LookUp(driver: Driver, d: Id, name: string, now: int, apiOk: bool) returns (failed: bool, found: Option<Obj>)
    requires driver.Ok() && IsDir(driver.tree, d)
    modifies driver.dirCache
    ensures driver.Ok()
    ensures driver.dirCache.data.Keys <= old(driver.dirCache.data.Keys) + {d}
    ensures failed <==> !apiOk && !IsFresh(old(driver.dirCache.data), d, now)
    ensures FreshStay(old(driver.dirCache.data), driver.dirCache.data, now)
    ensures NoneFresher(old(driver.dirCache.data), driver.dirCache.data, now, d, apiOk)
    ensures !failed && found.Some? ==>
              IsNamed(driver.tree, d, name, found.value.id) && IsObj(driver.tree, found.value)
    ensures !failed && found.None? ==> forall c :: !IsNamed(driver.tree, d, name, c)
  {
    var objs := driver.List(d, At(d), false, now, apiOk);
    if objs.None? {
      return true, None;
    }
    failed := false;
    found := FindByName(objs.value, name);
    ghost var l: Listing :| objs.value == ObjsOf(l) && Shows(l.items, driver.tree, d);
    FoundInListing(driver.tree, d, l, name, found);
  }

  /** A name that must exist is looked for again. */
  method LookUpTwice(driver: Driver, d: Id, name: string, mustExist: bool, now: int, apiOk: bool)
    returns (failed: bool, found: Option<Obj>)
    requires driver.Ok() && IsDir(driver.tree, d)
    modifies driver.dirCache
    ensures driver.Ok()
    ensures driver.dirCache.data.Keys <= old(driver.dirCache.data.Keys) + {d}
    ensures failed <==> !apiOk && !IsFresh(old(driver.dirCache.data), d, now)
    ensures FreshStay(old(driver.dirCache.data), driver.dirCache.data, now)
    ensures NoneFresher(old(driver.dirCache.data), driver.dirCache.data, now, d, apiOk)
    ensures !failed && found.Some? ==>
              IsNamed(driver.tree, d, name, found.value.id) && IsObj(driver.tree, found.value)
    ensures !failed && found.None? ==> forall c :: !IsNamed(driver.tree, d, name, c)
  {
    failed, found := LookUp(driver, d, name, now, apiOk);
    if !failed && mustExist && found.None? {
      failed, found := LookUp(driver, d, name, now, apiOk);
    }
  }

  /** Follows the path through the cached listings. Without mustExist the answer is the deepest object that
      exists. There is none exactly when a name that must exist is missing, or a name is to be looked for in
      something barred. */
  method GetPanObj(driver: Driver, path: seq<string>, mustExist: bool, now: int, listFails: Id -> bool)
    returns (r: Option<Obj>, depth: nat)
    requires driver.Ok() && NamesUnique(driver.tree)
    modifies driver.dirCache
    ensures driver.Ok()
    ensures driver.dirCache.data.Keys <= old(driver.dirCache.data.Keys) + driver.tree.Keys + {ROOT}
    ensures FreshStay(old(driver.dirCache.data), driver.dirCache.data, now)
    ensures r.Some? ==> depth == |Walk(driver.tree, path)|
    ensures r.Some? ==> r.value.id == End(ROOT, Walk(driver.tree, path)) && IsObj(driver.tree, r.value)
    ensures r.Some? && depth < |path| ==> r.value.kind == Dir
    ensures r.None? <==>
              || (mustExist && |Walk(driver.tree, path)| < |path|)
              || Barred(driver.tree, path, old(driver.dirCache.data), now, listFails)
    ensures var walk := Walk(driver.tree, path);
            |walk| == |path| && (forall k :: 0 <= k < |path| ==> Listable(driver.tree, End(ROOT, walk[..k]), listFails))
            ==> r.Some? && r.value.id == End(ROOT, walk)
  {
    depth := 0;
    ghost var data := driver.dirCache.data;
    var target := ROOT_OBJ;
    ghost var walk := Walk(driver.tree, path);
    ghost var tree := driver.tree;
    while depth < |path|
      invariant depth <= |path| && driver.Ok() && driver.tree == tree
      invariant driver.dirCache.data.Keys <= old(driver.dirCache.data.Keys) + tree.Keys + {ROOT}
      invariant Following(tree, walk, path, depth, target)
      invariant FreshStay(data, driver.dirCache.data, now) && UnlistedStay(data, driver.dirCache.data, now, listFails)
      invariant PassedUpTo(tree, walk, depth, data, now, listFails)
    {
      BarredHere(tree, walk, path, depth, target, data, now, listFails);
      if target.kind == File {
        return None, depth;
      }
      ghost var before := driver.dirCache.data;
      var failed, found := LookUpTwice(driver, target.id, path[depth], mustExist, now, !listFails(target.id));
      StillUnlisted(data, before, driver.dirCache.data, target.id, now, listFails);
      if failed {
        return None, depth;
      }
      Followed(tree, walk, path, depth, target, found);
      if found.None? {
        return if mustExist then None else Some(target), depth;
      }
      target := found.value;
      depth := depth + 1;
    }
    assert walk == walk[..depth];
    r := Some(target);
  }

  /** The first depth names of the path are followed, to target. */
  ghost predicate Following(tree: Tree, walk: seq<Id>, path: seq<string>, depth: nat, target: Obj) {
    && depth <= |walk| && depth <= |path|
    && target.id == End(ROOT, walk[..depth]) && IsObj(tree, target)
    && walk == walk[..depth] + WalkFrom(tree, target.id, path[depth..])
  }

  /** What the server does not list is answered from the cache just when it was at first. */
  ghost predicate UnlistedStay(was: map<Id, Entry<Listing>>, data: map<Id, Entry<Listing>>, now: int,
                               listFails: Id -> bool) {
    forall d :: listFails(d) && IsFresh(data, d, now) ==> IsFresh(was, d, now)
  }

  lemma StillUnlisted(was: map<Id, Entry<Listing>>, before: map<Id, Entry<Listing>>, data: map<Id, Entry<Listing>>,
                      d: Id, now: int, listFails: Id -> bool)
    requires UnlistedStay(was, before, now, listFails) && NoneFresher(before, data, now, d, !listFails(d))
    ensures UnlistedStay(was, data, now, listFails)
  {
  }

  /** Nothing before this depth is barred. */
  ghost predicate PassedUpTo(tree: Tree, walk: seq<Id>, depth: nat, data: map<Id, Entry<Listing>>, now: int,
                             listFails: Id -> bool) {
    forall k :: 0 <= k < depth && k <= |walk| ==> !IsBarred(tree, End(ROOT, walk[..k]), data, now, listFails)
  }

  /** What the target of the walk, which is to be listed next, means for the whole. */
  lemma BarredHere(tree: Tree, walk: seq<Id>, path: seq<string>, depth: nat, target: Obj,
                   data: map<Id, Entry<Listing>>, now: int, listFails: Id -> bool)
    requires WellFormed(tree) && walk == Walk(tree, path) && depth < |path|
    requires Following(tree, walk, path, depth, target)
    requires PassedUpTo(tree, walk, depth, data, now, listFails)
    ensures var here := target.kind == File || (listFails(target.id) && !IsFresh(data, target.id, now));
            && (here ==> Barred(tree, path, data, now, listFails))
            && (!here ==> PassedUpTo(tree, walk, depth + 1, data, now, listFails))
            && (!here && depth == |walk| ==> !Barred(tree, path, data, now, listFails))
            && (!here && depth + 1 == |path| ==> !Barred(tree, path, data, now, listFails))
  {
    assert IsBarred(tree, End(ROOT, walk[..depth]), data, now, listFails) <==>
           target.kind == File || (listFails(target.id) && !IsFresh(data, target.id, now));
  }

  lemma Followed(tree: Tree, walk: seq<Id>, path: seq<string>, depth: nat, target: Obj, found: Option<Obj>)
    requires NamesUnique(tree) && depth < |path| && Following(tree, walk, path, depth, target)
    requires found.Some? ==> IsNamed(tree, target.id, path[depth], found.value.id) && IsObj(tree, found.value)
    requires found.None? ==> forall c :: !IsNamed(tree, target.id, path[depth], c)
    ensures found.None? ==> depth == |walk| && walk == walk[..depth]
    ensures found.Some? ==> Following(tree, walk, path, depth + 1, found.value)
  {
    OneFurther(tree, walk, target.id, path, depth, found);
  }

  /** One round: the walk has the object found next, or ends here. */
  lemma OneFurther(tree: Tree, walk: seq<Id>, d: Id, path: seq<string>, k: nat, found: Option<Obj>)
    requires NamesUnique(tree) && k < |path| && k <= |walk|
    requires walk == walk[..k] + WalkFrom(tree, d, path[k..])
    requires found.Some? ==> IsNamed(tree, d, path[k], found.value.id)
    requires found.None? ==> forall c :: !IsNamed(tree, d, path[k], c)
    ensures found.None? ==> k == |walk| && walk == walk[..k]
    ensures found.Some? ==> k < |walk| && walk[..k + 1] == walk[..k] + [found.value.id]
    ensures found.Some? ==> walk == walk[..k + 1] + WalkFrom(tree, found.value.id, path[k + 1..])
  {
    if found.None? {
      StopHere(tree, d, path[k..]);
    } else {
      WalkStep(tree, d, path[k..], found.value.id);
      assert path[k..][1..] == path[k + 1..];
    }
  }

  /** A name of the path is to be looked for in something barred. */
  ghost predicate Barred(tree: Tree, path: seq<string>, data: map<Id, Entry<Listing>>, now: int,
                         listFails: Id -> bool) {
    var walk := Walk(tree, path);
    exists k :: 0 <= k <= |walk| && k < |path| && IsBarred(tree, End(ROOT, walk[..k]), data, now, listFails)
  }

  /** A file, or a directory listed neither by the cache, as it is before, nor by the server. */
  predicate IsBarred(tree: Tree, d: Id, data: map<Id, Entry<Listing>>, now: int, listFails: Id -> bool) {
    (d in tree && tree[d].kind == File) || (listFails(d) && !IsFresh(data, d, now))
  }

  predicate Listable(tree: Tree, d: Id, listFails: Id -> bool) { IsDir(tree, d) && !listFails(d) }

  /** An object as the server has it; the root has no parent. */
  predicate IsObj(tree: Tree, obj: Obj) {
    obj == ROOT_OBJ || (obj.id in tree && obj.kind == tree[obj.id].kind && obj.name == tree[obj.id].name)
  }

  lemma StopHere(tree: Tree, d: Id, path: seq<string>)
    requires path != [] && forall c :: !IsNamed(tree, d, path[0], c)
    ensures WalkFrom(tree, d, path) == []
  {
  }

  // ---------- the recursive Mkdir of cloudreve ----------

  /** How many names of the path are missing. */
  ghost function Missing(tree: Tree, path: seq<string>): nat { |path| - |Walk(tree, path)| }

  lemma {:induction false} WalkAfterCreate(tree: Tree, d: Id, path: seq<string>, id: Id)
    requires WellFormed(tree) && NamesUnique(tree) && id !in tree && id != ROOT
    requires |WalkFrom(tree, d, path)| < |path| && d != id
    ensures var ids := WalkFrom(tree, d, path);
            var tree' := Created(tree, id, End(d, ids), path[|ids|]);
            NamesUnique(tree') && WalkFrom(tree', d, path) == ids + [id]
    decreases |path|
  {
    var ids := WalkFrom(tree, d, path);
    var tree' := Created(tree, id, End(d, ids), path[|ids|]);
    WalkIs(tree, d, path, |ids|);
    UniqueAfterCreate(tree, id, End(d, ids), path[|ids|]);
    if ids == [] {
      WalkStep(tree', d, path, id);
      if path[1..] != [] {
        forall c ensures !IsNamed(tree', id, path[1..][0], c) {
          if c in tree { assert IsDir(tree, tree[c].parent); }
        }
        StopHere(tree', id, path[1..]);
      }
    } else {
      var c := ids[0];
      assert IsNamed(tree, d, path[0], c) && ids == [c] + WalkFrom(tree, c, path[1..]);
      assert End(c, ids[1..]) == End(d, ids);
      WalkAfterCreate(tree, c, path[1..], id);
      WalkStep(tree', d, path, c);
    }
  }

  lemma UniqueAfterCreate(tree: Tree, id: Id, parent: Id, name: string)
    requires NamesUnique(tree) && id !in tree && forall c :: !IsNamed(tree, parent, name, c)
    ensures NamesUnique(Created(tree, id, parent, name))
  {
    var tree' := Created(tree, id, parent, name);
    forall a | a in tree' ensures OnlyOne(tree', a) {
      if a != id { assert OnlyOne(tree, a) && !IsNamed(tree, parent, name, a); }
      forall b | IsNamed(tree', tree'[a].parent, tree'[a].name, b) ensures b == a {
        assert !IsNamed(tree, parent, name, b);
        assert a != id && b != id ==> IsNamed(tree, tree[a].parent, tree[a].name, b);
      }
    }
  }

  /** A chain begun with one directory and continued below it. */
  lemma {:induction false} ChainHead(tree: Tree, under: Id, names: seq<string>, ids: seq<Option<Id>>, k: nat)
    requires k < |names| && k < |ids| && forall j :: 0 <= j <= k ==> ids[j].Some?
    ensures Chain(tree, under, names, ids, k + 1)
            == Chain(Created(tree, ids[0].value, under, names[0]), ids[0].value, names[1..], ids[1..], k)
    decreases k
  {
    if k > 0 { ChainHead(tree, under, names, ids, k - 1); }
  }

  lemma {:induction false} ChainOfPrefix(tree: Tree, under: Id, names: seq<string>, ids: seq<Option<Id>>, n: nat,
                                         k: nat)
    requires k <= |names| && k <= n <= |ids| && forall j :: 0 <= j < k ==> ids[j].Some?
    ensures Chain(tree, under, names, ids[..n], k) == Chain(tree, under, names, ids, k)
    decreases k
  {
    if k > 0 { ChainOfPrefix(tree, under, names, ids, n, k - 1); }
  }

  /** Just the first made of the missing directories have been made, each below the one before. */
  ghost predicate MadeFrom(tree: Tree, tree': Tree, path: seq<string>, newIds: seq<Option<Id>>, made: nat) {
    var walk := Walk(tree, path);
    && made <= Missing(tree, path) && made <= |newIds|
    && (forall k :: 0 <= k < made ==> newIds[k].Some?)
    && tree' == Chain(tree, End(ROOT, walk), path[|walk|..], newIds, made)
  }

  lemma NothingMade(tree: Tree, path: seq<string>, newIds: seq<Option<Id>>)
    ensures MadeFrom(tree, tree, path, newIds, 0)
  {
  }

  /** The tree with the first missing directory made. */
  ghost function OneMade(tree: Tree, path: seq<string>, id: Id): Tree
    requires Missing(tree, path) > 0
  {
    Created(tree, id, End(ROOT, Walk(tree, path)), path[|Walk(tree, path)|])
  }

  lemma OneLessMissing(tree: Tree, path: seq<string>, id: Id)
    requires WellFormed(tree) && NamesUnique(tree) && id !in tree && id != ROOT && Missing(tree, path) > 0
    ensures NamesUnique(OneMade(tree, path, id))
    ensures Walk(OneMade(tree, path, id), path) == Walk(tree, path) + [id]
    ensures Missing(OneMade(tree, path, id), path) == Missing(tree, path) - 1
  {
    WalkAfterCreate(tree, ROOT, path, id);
  }

  lemma OneMoreMade(tree: Tree, tree': Tree, path: seq<string>, newIds: seq<Option<Id>>, m: nat)
    requires WellFormed(tree) && NamesUnique(tree) && Missing(tree, path) > 0
    requires newIds != [] && newIds[0].Some? && newIds[0].value !in tree && newIds[0].value != ROOT
    requires MadeFrom(OneMade(tree, path, newIds[0].value), tree', path, newIds[1..], m)
    ensures MadeFrom(tree, tree', path, newIds, m + 1)
  {
    OneLessMissing(tree, path, newIds[0].value);
    forall k | 0 <= k < m + 1 ensures newIds[k].Some? {
      if k > 0 { assert newIds[1..][k - 1] == newIds[k]; }
    }
    ChainFromHere(tree, Walk(tree, path), path, newIds, m);
  }

  /** The directory that number j is made in, d for the first. */
  function MadeIn(newIds: seq<Option<Id>>, d: Id, j: nat): Id {
    if j == 0 then d else if j <= |newIds| && newIds[j - 1].Some? then newIds[j - 1].value else ROOT
  }

  /** The first m of the directories are made, and the one above each can be listed when it is looked up. */
  ghost predicate AllGranted(newIds: seq<Option<Id>>, d: Id, listFails: Id -> bool, m: nat) {
    m <= |newIds| && forall j :: 0 <= j < m ==> newIds[j].Some? && !listFails(MadeIn(newIds, d, j))
  }

  /** Why it stops after some directories: the next is refused, or one that it is to look in is not listed. */
  predicate StopsAfter(newIds: seq<Option<Id>>, d: Id, listFails: Id -> bool, m: nat, made: nat) {
    || (made < m && made < |newIds| && newIds[made].None?)
    || (made > 0 && listFails(MadeIn(newIds, d, made - 1)))
    || (0 < made < m && listFails(MadeIn(newIds, d, made)))
  }

  lemma GrantedHead(newIds: seq<Option<Id>>, d: Id, listFails: Id -> bool, m: nat)
    requires 0 < m <= |newIds| && newIds[0].Some?
    ensures var id := newIds[0].value;
            && (AllGranted(newIds, d, listFails, m)
                <==> !listFails(d) && AllGranted(newIds[1..], id, listFails, m - 1))
            && (m > 1 && AllGranted(newIds[1..], id, listFails, m - 1) ==> !listFails(id))
  {
    var id, rest := newIds[0].value, newIds[1..];
    assert MadeIn(newIds, d, 0) == d && MadeIn(rest, id, 0) == id;
    if !listFails(d) && AllGranted(rest, id, listFails, m - 1) {
      forall j | 0 <= j < m ensures newIds[j].Some? && !listFails(MadeIn(newIds, d, j)) {
        if j > 0 { assert rest[j - 1] == newIds[j]; }
      }
    }
    if AllGranted(newIds, d, listFails, m) {
      forall j | 0 <= j < m - 1 ensures rest[j].Some? && !listFails(MadeIn(rest, id, j)) {
        assert rest[j] == newIds[j + 1];
      }
    }
  }

  lemma StopsLater(newIds: seq<Option<Id>>, d: Id, listFails: Id -> bool, m: nat, made: nat)
    requires 0 < m <= |newIds| && newIds[0].Some?
    requires StopsAfter(newIds[1..], newIds[0].value, listFails, m - 1, made)
    ensures StopsAfter(newIds, d, listFails, m, made + 1)
  {
    assert made < |newIds[1..]| ==> newIds[1..][made] == newIds[made + 1];
  }

  /** When the path was followed as far as it goes and the first missing directory is made, the next attempt is
      barred only if the listing that was forgotten, or that of the new directory, is not to be had. */
  lemma BarredAfterOne(tree: Tree, path: seq<string>, was: map<Id, Entry<Listing>>, data: map<Id, Entry<Listing>>,
                       now: int, listFails: Id -> bool, id: Id)
    requires WellFormed(tree) && NamesUnique(tree) && Missing(tree, path) > 0
    requires id !in tree && id != ROOT && id !in data && FreshStay(was, data, now)
    requires !Barred(tree, path, was, now, listFails)
    ensures var d := End(ROOT, Walk(tree, path));
            Barred(OneMade(tree, path, id), path, data - {d}, now, listFails)
            <==> listFails(d) || (Missing(tree, path) > 1 && listFails(id))
  {
    var walk, tree' := Walk(tree, path), OneMade(tree, path, id);
    var d := End(ROOT, walk);
    OneLessMissing(tree, path, id);
    var walk' := walk + [id];
    assert walk == walk[..|walk|] && walk' == walk'[..|walk'|];
    forall k | 0 <= k <= |walk|
      ensures walk'[..k] == walk[..k]
      ensures var e := End(ROOT, walk[..k]);
              && (IsBarred(tree', e, data - {d}, now, listFails) ==> e == d && listFails(d))
    {
      assert !IsBarred(tree, End(ROOT, walk[..k]), was, now, listFails);
      OnTheWalk(tree, path, k);
    }
    assert listFails(d) ==> IsBarred(tree', End(ROOT, walk'[..|walk|]), data - {d}, now, listFails);
    assert IsBarred(tree', End(ROOT, walk'[..|walk'|]), data - {d}, now, listFails) <==> listFails(id);
  }

  lemma OnTheWalk(tree: Tree, path: seq<string>, k: nat)
    requires k <= |Walk(tree, path)|
    ensures var e := End(ROOT, Walk(tree, path)[..k]); e == ROOT || e in tree
  {
    if k > 0 { WalkIs(tree, ROOT, path, k - 1); }
  }

  /** Makes the first missing directory, forgets the listing of the one above it, and starts over. It ends with
      the object at the path exactly when nothing is in the way and all the missing directories are granted.
      ext: the last name has an extension, which the driver refuses. */
  method Mkdir(driver: Driver, path: seq<string>, ext: bool, newIds: seq<Option<Id>>, now: int, listFails: Id -> bool)
    returns (r: Option<Obj>, ghost made: nat)
    requires driver.Ok() && NamesUnique(driver.tree)
    requires NewIds(driver.tree, driver.Cached(), newIds) && |newIds| >= Missing(driver.tree, path)
    modifies driver`tree, driver.dirCache
    decreases Missing(driver.tree, path)
    ensures driver.Ok() && NamesUnique(driver.tree)
    ensures MadeFrom(old(driver.tree), driver.tree, path, newIds, made)
    ensures r.Some? ==> made == old(Missing(driver.tree, path)) && Missing(driver.tree, path) == 0
    ensures r.Some? ==> IsObj(driver.tree, r.value) && r.value.id == End(ROOT, Walk(driver.tree, path))
    ensures MkdirEnds(old(driver.tree), path, ext, newIds, old(driver.dirCache.data), now, listFails, r.Some?, made)
  {
    made := 0;
    ghost var tree, cached, data := driver.tree, driver.Cached(), driver.dirCache.data;
    NothingMade(tree, path, newIds);
    if path == [] {
      return Some(ROOT_OBJ), made;
    }
    if ext {
      return None, made;
    }
    var found, depth := GetPanObj(driver, path, false, now, listFails);
    if found.None? || depth == |path| {
      return found, made;
    }
    if newIds[0].None? {
      return None, made;
    }
    assert IsNew(tree, cached, newIds, 0);
    NewIdsAfterListing(tree, cached, driver.Cached(), newIds);
    assert IsNew(tree, driver.Cached(), newIds, 0);
    BarredAfterOne(tree, path, data, driver.dirCache.data, now, listFails, newIds[0].value);
    MakeNext(driver, found.value.id, path, depth, newIds);
    ghost var tree1, data1 := driver.tree, driver.dirCache.data;
    r, made := Mkdir(driver, path, ext, newIds[1..], now, listFails);
    OneMoreMade(tree, driver.tree, path, newIds, made);
    EndsOneLater(tree, path, newIds, data, data1, now, listFails, r.Some?, made);
    made := made + 1;
  }

  /** Exactly when Mkdir succeeds, and otherwise why and where it stops. */
  ghost predicate MkdirEnds(tree: Tree, path: seq<string>, ext: bool, newIds: seq<Option<Id>>,
                            data: map<Id, Entry<Listing>>, now: int, listFails: Id -> bool, ok: bool, made: nat) {
    var d, m := End(ROOT, Walk(tree, path)), Missing(tree, path);
    && (ok <==> path == []
                || (!ext && !Barred(tree, path, data, now, listFails) && AllGranted(newIds, d, listFails, m)))
    && (!ok && (ext || Barred(tree, path, data, now, listFails)) ==> made == 0)
    && (!ok && !ext && !Barred(tree, path, data, now, listFails) ==> StopsAfter(newIds, d, listFails, m, made))
  }

  lemma EndsOneLater(tree: Tree, path: seq<string>, newIds: seq<Option<Id>>, data: map<Id, Entry<Listing>>,
                     data1: map<Id, Entry<Listing>>, now: int, listFails: Id -> bool, ok: bool, made: nat)
    requires WellFormed(tree) && NamesUnique(tree) && 0 < Missing(tree, path) <= |newIds| && newIds[0].Some?
    requires newIds[0].value !in tree && newIds[0].value != ROOT && !Barred(tree, path, data, now, listFails)
    requires var id := newIds[0].value;
             Barred(OneMade(tree, path, id), path, data1, now, listFails)
             <==> listFails(End(ROOT, Walk(tree, path))) || (Missing(tree, path) > 1 && listFails(id))
    requires MkdirEnds(OneMade(tree, path, newIds[0].value), path, false, newIds[1..], data1, now, listFails, ok, made)
    ensures MkdirEnds(tree, path, false, newIds, data, now, listFails, ok, made + 1)
  {
    var d := End(ROOT, Walk(tree, path));
    OneLessMissing(tree, path, newIds[0].value);
    GrantedHead(newIds, d, listFails, Missing(tree, path));
    assert MadeIn(newIds, d, 0) == d && MadeIn(newIds, d, 1) == newIds[0].value;
    if StopsAfter(newIds[1..], newIds[0].value, listFails, Missing(tree, path) - 1, made) {
      StopsLater(newIds, d, listFails, Missing(tree, path), made);
    }
  }

  /** Makes the first missing directory. */
  method MakeNext(driver: Driver, d: Id, path: seq<string>, depth: nat, newIds: seq<Option<Id>>)
    requires driver.Ok() && NamesUnique(driver.tree) && IsDir(driver.tree, d)
    requires NewIds(driver.tree, driver.Cached(), newIds) && newIds != [] && newIds[0].Some?
    requires depth == |Walk(driver.tree, path)| < |path| && d == End(ROOT, Walk(driver.tree, path))
    modifies driver`tree, driver.dirCache
    ensures driver.Ok() && NamesUnique(driver.tree)
    ensures driver.tree == OneMade(old(driver.tree), path, newIds[0].value)
    ensures driver.dirCache.data == old(driver.dirCache.data) - {d}
    ensures NewIds(driver.tree, driver.Cached(), newIds[1..])
    ensures Missing(driver.tree, path) == old(Missing(driver.tree, path)) - 1
  {
    ghost var tree, cached := driver.tree, driver.Cached();
    assert IsNew(tree, cached, newIds, 0);
    OneLessMissing(tree, path, newIds[0].value);
    CreateDirectory(driver, d, path[depth], newIds[0].value);
    NewIdsAfterOne(tree, cached, newIds, d, path[depth]);
    NewIdsAfterListing(driver.tree, cached, driver.Cached(), newIds[1..]);
  }

  /** One new directory; the listing above it is forgotten. */
  method CreateDirectory(driver: Driver, d: Id, name: string, id: Id)
    requires driver.Ok() && IsDir(driver.tree, d) && Unused(driver.tree, driver.Cached(), id)
    modifies driver`tree, driver.dirCache
    ensures driver.Ok() && driver.tree == Created(old(driver.tree), id, d, name)
    ensures driver.dirCache.data == old(driver.dirCache.data) - {d}
  {
    ghost var cached := driver.Cached();
    CreateSpoilsParent(cached, driver.tree, {}, id, d, name);
    driver.tree := Created(driver.tree, id, d, name);
    driver.dirCache.Del(d);
    assert driver.Cached() == cached - {d};
    ForgetDoubtful(cached, driver.tree, {} + {d}, {d});
    assert {} + {d} - {d} == {};
  }

  lemma ChainFromHere(tree: Tree, walk: seq<Id>, path: seq<string>, newIds: seq<Option<Id>>, m: nat)
    requires |walk| + m < |path| && m < |newIds|
    requires forall k :: 0 <= k <= m ==> newIds[k].Some?
    ensures var k, id := |walk|, newIds[0].value;
            Chain(tree, End(ROOT, walk), path[k..], newIds, m + 1)
            == Chain(Created(tree, id, End(ROOT, walk), path[k]), id, path[k + 1..], newIds[1..], m)
  {
    var k := |walk|;
    ChainHead(tree, End(ROOT, walk), path[k..], newIds, m);
    assert path[k..][1..] == path[k + 1..];
  }

  // ---------- the Mkdir of aliyundrive_open ----------

  function Values(ids: seq<Option<Id>>): (r: seq<Id>)
    requires forall k :: 0 <= k < |ids| ==> ids[k].Some?
    ensures |r| == |ids|
  {
    seq(|ids|, k requires 0 <= k < |ids| => ids[k].value)
  }

  /** Directories made one below the other along a path are the path's next objects. */
  lemma {:induction false} MadeAreWalked(tree: Tree, tree': Tree, path: seq<string>, newIds: seq<Option<Id>>, m: nat)
    requires WellFormed(tree) && NamesUnique(tree) && NewIds(tree, map[], newIds)
    requires MadeFrom(tree, tree', path, newIds, m) && IsDir(tree, End(ROOT, Walk(tree, path)))
    ensures NamesUnique(tree') && Walk(tree', path) == Walk(tree, path) + Values(newIds[..m])
    decreases m
  {
    if m > 0 {
      var id := newIds[0].value;
      assert IsNew(tree, map[], newIds, 0);
      var walk := Walk(tree, path);
      var first := OneMade(tree, path, id);
      OneLessMissing(tree, path, id);
      CreateSpoilsParent(map[], tree, {}, id, End(ROOT, walk), path[|walk|]);
      NewIdsAfterOne(tree, map[], newIds, End(ROOT, walk), path[|walk|]);
      FirstMade(tree, tree', path, newIds, m - 1);
      MadeAreWalked(first, tree', path, newIds[1..], m - 1);
      ValuesHead(newIds, m);
    } else {
      assert Values(newIds[..m]) == [];
    }
  }

  lemma ValuesHead(newIds: seq<Option<Id>>, m: nat)
    requires 0 < m <= |newIds| && forall k :: 0 <= k < m ==> newIds[k].Some?
    ensures var rest := newIds[1..][..m - 1];
            && (forall k :: 0 <= k < |rest| ==> rest[k].Some?)
            && Values(newIds[..m]) == [newIds[0].value] + Values(rest)
  {
    assert newIds[..m] == [newIds[0]] + newIds[1..][..m - 1];
  }

  lemma FirstMade(tree: Tree, tree': Tree, path: seq<string>, newIds: seq<Option<Id>>, m: nat)
    requires WellFormed(tree) && NamesUnique(tree) && Missing(tree, path) > 0
    requires newIds != [] && newIds[0].Some? && newIds[0].value !in tree && newIds[0].value != ROOT
    requires MadeFrom(tree, tree', path, newIds, m + 1)
    ensures MadeFrom(OneMade(tree, path, newIds[0].value), tree', path, newIds[1..], m)
  {
    OneLessMissing(tree, path, newIds[0].value);
    ChainFromHere(tree, Walk(tree, path), path, newIds, m);
  }

  lemma AllMade(tree: Tree, tree': Tree, path: seq<string>, newIds: seq<Option<Id>>, m: nat, last: Id)
    requires 0 < m <= |newIds| && m == Missing(tree, path) && newIds[m - 1] == Some(last)
    requires forall k :: 0 <= k < m ==> newIds[k].Some?
    requires Walk(tree', path) == Walk(tree, path) + Values(newIds[..m])
    ensures Missing(tree', path) == 0 && last == End(ROOT, Walk(tree', path))
  {
    assert Values(newIds[..m])[m - 1] == newIds[..m][m - 1].value;
  }

  /** How the loop ends: with all of the path made and nothing stale, or with a refusal that may have
      left the listing of the directory above the first one made. */
  ghost predicate LoopEnds(tree: Tree, tree': Tree, cached: Listings, path: seq<string>, newIds: seq<Option<Id>>,
                           r: Option<Id>, made: nat) {
    && MadeFrom(tree, tree', path, newIds, made) && NamesUnique(tree')
    && (r.Some? ==> made == Missing(tree, path) && Missing(tree', path) == 0)
    && (r.Some? ==> Coherent(cached, tree') && r.value == End(ROOT, Walk(tree', path)))
    && (r.None? ==> CoherentBut(cached, tree', if made > 0 then {End(ROOT, Walk(tree, path))} else {}))
    && (r.None? ==> (Coherent(cached, tree') <==> made == 0 || End(ROOT, Walk(tree, path)) !in cached))
  }

  /** A request was refused, or the new directory, whose id was not told, could not be looked up. */
  predicate RefusedOrUnseen(newIds: seq<Option<Id>>, unnamed: nat -> bool, lookFails: nat -> bool, made: nat) {
    (made < |newIds| && newIds[made].None?) || (made > 0 && unnamed(made - 1) && lookFails(made - 1))
  }

  /** The first m of the requests go through, and every directory made can be found. */
  ghost predicate AllSeen(newIds: seq<Option<Id>>, unnamed: nat -> bool, lookFails: nat -> bool, m: nat) {
    m <= |newIds| && forall j :: 0 <= j < m ==> newIds[j].Some? && !(unnamed(j) && lookFails(j))
  }

  /** The loop, below the deepest directory that is there. */
  method MakeRest(driver: Driver, d: Id, path: seq<string>, depth: nat, newIds: seq<Option<Id>>,
                  unnamed: nat -> bool, lookFails: nat -> bool)
    returns (r: Option<Id>, made: nat)
    requires driver.Ok() && NamesUnique(driver.tree) && IsDir(driver.tree, d)
    requires depth == |Walk(driver.tree, path)| < |path| && d == End(ROOT, Walk(driver.tree, path))
    requires NewIds(driver.tree, driver.Cached(), newIds) && |newIds| >= Missing(driver.tree, path)
    modifies driver`tree, driver.dirCache
    ensures LoopEnds(old(driver.tree), driver.tree, driver.Cached(), path, newIds, r, made)
    ensures r.None? ==> RefusedOrUnseen(newIds, unnamed, lookFails, made)
    ensures r.Some? <==> AllSeen(newIds, unnamed, lookFails, old(Missing(driver.tree, path)))
    ensures r.Some? ==> driver.Ok()
  {
    ghost var tree, cached := driver.tree, driver.Cached();
    var n := |path| - depth;
    NameIsMissing(tree, d, path, depth);
    NewIdsPrefix(tree, cached, newIds, n);
    var ok, last;
    ok, last, made := driver.MkdirBelow(d, path[depth..], newIds[..n], unnamed, lookFails);
    RestMade(cached, tree, driver.tree, d, path, depth, newIds, made);
    if ok {
      AllMade(tree, driver.tree, path, newIds, made, last);
      return Some(last), made;
    }
    r := None;
  }

  lemma NameIsMissing(tree: Tree, d: Id, path: seq<string>, depth: nat)
    requires depth == |Walk(tree, path)| < |path| && d == End(ROOT, Walk(tree, path))
    ensures !HasChild(tree, d, path[depth..][0])
  {
    WalkIs(tree, ROOT, path, depth);
    forall c | c in tree && tree[c].parent == d && tree[c].name == path[depth]
      ensures IsNamed(tree, d, path[depth], c)
    {
    }
  }

  /** What the loop below the deepest directory makes of the whole path. */
  lemma RestMade(cached: Listings, tree: Tree, tree': Tree, d: Id, path: seq<string>, depth: nat,
                 newIds: seq<Option<Id>>, made: nat)
    requires WellFormed(tree) && NamesUnique(tree) && Coherent(cached, tree) && IsDir(tree, d)
    requires depth == |Walk(tree, path)| < |path| && d == End(ROOT, Walk(tree, path))
    requires NewIds(tree, cached, newIds) && made <= |path| - depth <= |newIds|
    requires MadeSoFar(cached, tree, d, path[depth..], newIds[..|path| - depth], made, tree')
    ensures MadeFrom(tree, tree', path, newIds, made) && NamesUnique(tree')
    ensures Walk(tree', path) == Walk(tree, path) + Values(newIds[..made])
    ensures Coherent(cached, tree') <==> made == 0 || d !in cached
  {
    var n := |path| - depth;
    forall k | 0 <= k < made ensures newIds[k].Some? { assert newIds[..n][k] == newIds[k]; }
    ChainOfPrefix(tree, d, path[depth..], newIds, n, made);
    NewIdsAfterListing(tree, cached, map[], newIds);
    MadeAreWalked(tree, tree', path, newIds, made);
    NewIdsPrefix(tree, cached, newIds, n);
    PartialMkdirKeepsIff(cached, tree, d, path[depth..], newIds[..n], made, tree');
  }

  /** Finds the deepest directory that is there and makes the rest below it, one after the other; only
      then is that directory's listing forgotten. The directories made are those the recursive Mkdir
      makes. */
  method MkdirInLoop(driver: Driver, path: seq<string>, newIds: seq<Option<Id>>, unnamed: nat -> bool,
                     lookFails: nat -> bool, now: int, listFails: Id -> bool)
    returns (r: Option<Id>, made: nat)
    requires driver.Ok() && NamesUnique(driver.tree)
    requires NewIds(driver.tree, driver.Cached(), newIds) && |newIds| >= Missing(driver.tree, path)
    modifies driver`tree, driver.dirCache
    ensures LoopEnds(old(driver.tree), driver.tree, driver.Cached(), path, newIds, r, made)
    ensures r.Some? ==> driver.Ok()
    ensures r.Some? <==> !Barred(old(driver.tree), path, old(driver.dirCache.data), now, listFails)
                         && AllSeen(newIds, unnamed, lookFails, old(Missing(driver.tree, path)))
    ensures r.None? ==> (made == 0 && Barred(old(driver.tree), path, old(driver.dirCache.data), now, listFails))
                        || RefusedOrUnseen(newIds, unnamed, lookFails, made)
  {
    ghost var tree, cached := driver.tree, driver.Cached();
    NothingMade(tree, path, newIds);
    var found, depth := GetPanObj(driver, path, false, now, listFails);
    if found.None? {
      return None, 0;
    }
    if depth == |path| {
      return Some(found.value.id), 0;
    }
    NewIdsAfterListing(tree, cached, driver.Cached(), newIds);
    r, made := MakeRest(driver, found.value.id, path, depth, newIds, unnamed, lookFails);
  }
}
