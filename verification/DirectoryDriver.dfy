/** A driver that addresses objects by id (aliyundrive_open; the listing of cloudreve is the same):
    every operation changes the tree by requests to the server and then forgets the listings it may
    have spoiled. */
module DirectoryDriver {
  import opened Basics
  import opened Cache
  import opened Directory

  /** The parent of a handle: missing, without an id, or known. */
  datatype ParentRef = Nil | Blank | At(id: Id)

  datatype Obj = Obj(id: Id, name: string, kind: Kind, parent: ParentRef)

  /** A cached listing. Its objects all carry the handle the directory was first listed with. */
  datatype Listing = Listing(items: seq<Item>, handle: ParentRef)

  function ObjsOf(l: Listing): seq<Obj> {
    seq(|l.items|, i requires 0 <= i < |l.items| => Obj(l.items[i].id, l.items[i].name, l.items[i].kind, l.handle))
  }

  /** A handle as it is on the server. */
  predicate IsHandle(tree: Tree, obj: Obj) {
    obj.id in tree && obj.parent == At(tree[obj.id].parent)
  }

  predicate AllThere(tree: Tree, items: seq<Obj>) {
    forall k :: 0 <= k < |items| ==> items[k].id in tree
  }

  function MoveAll(tree: Tree, items: seq<Obj>, target: Id): Tree
    requires AllThere(tree, items)
    ensures MoveAll(tree, items, target).Keys == tree.Keys
  {
    if items == [] then tree
    else Moved(MoveAll(tree, items[..|items| - 1], target), items[|items| - 1].id, target)
  }

  function ParentIds(items: seq<Obj>): set<Id> {
    set k | 0 <= k < |items| && items[k].parent.At? :: items[k].parent.id
  }

  lemma ParentIdsAre(items: seq<Obj>, d: Id)
    ensures d in ParentIds(items) <==> exists k :: 0 <= k < |items| && items[k].parent == At(d)
  {
    if k :| 0 <= k < |items| && items[k].parent == At(d) {
      assert items[k].parent.At? && items[k].parent.id == d;
    }
  }

  /** Where the items really are. */
  function RealParents(tree: Tree, items: seq<Obj>): set<Id> {
    set k | 0 <= k < |items| && items[k].id in tree :: tree[items[k].id].parent
  }

  lemma RealParentsGrow(tree: Tree, items: seq<Obj>, k: nat)
    requires k < |items| && items[k].id in tree
    ensures RealParents(tree, items[..k + 1]) == RealParents(tree, items[..k]) + {tree[items[k].id].parent}
  {
    var more := items[..k + 1];
    assert more[k] == items[k] && forall j :: 0 <= j < k ==> more[j] == items[..k][j];
    forall d | d in RealParents(tree, items[..k]) ensures d in RealParents(tree, more) {
      var j :| 0 <= j < k && items[..k][j].id in tree && tree[items[..k][j].id].parent == d;
      assert more[j].id in tree;
    }
  }

  /** Handles that name the real parents. */
  lemma TrueHandles(tree: Tree, items: seq<Obj>)
    requires forall k :: 0 <= k < |items| ==> IsHandle(tree, items[k])
    ensures RealParents(tree, items) <= ParentIds(items)
  {
    forall d | d in RealParents(tree, items) ensures d in ParentIds(items) {
      var k :| 0 <= k < |items| && items[k].id in tree && tree[items[k].id].parent == d;
      assert IsHandle(tree, items[k]);
    }
  }

  /** Moving changes nothing but the parents of the moved, and those become the target. */
  lemma {:induction false} MoveAllParents(tree: Tree, items: seq<Obj>, target: Id, id: Id)
    requires id in tree && AllThere(tree, items)
    ensures var node := MoveAll(tree, items, target)[id];
            && node.name == tree[id].name && node.kind == tree[id].kind
            && node.parent == if exists k :: 0 <= k < |items| && items[k].id == id then target else tree[id].parent
  {
    if items != [] {
      var n := |items| - 1;
      MoveAllParents(tree, items[..n], target, id);
      assert forall k :: 0 <= k < n ==> items[..n][k] == items[k];
    }
  }

  /** A listing that can be answered from the cache. */
  predicate IsFresh(data: map<Id, Entry<Listing>>, d: Id, now: int) {
    d in data && !data[d].Expired(now)
  }

  ghost predicate FreshStay(was: map<Id, Entry<Listing>>, data: map<Id, Entry<Listing>>, now: int) {
    forall d :: IsFresh(was, d, now) ==> IsFresh(data, d, now)
  }

  /** Nothing but d can be answered from the cache that could not before, and d only if the server listed it. */
  ghost predicate NoneFresher(was: map<Id, Entry<Listing>>, data: map<Id, Entry<Listing>>, now: int, d: Id,
                              apiOk: bool) {
    forall x :: IsFresh(data, x, now) ==> IsFresh(was, x, now) || (x == d && apiOk)
  }

  /** How a renaming ends. */
  datatype RenameEnd = Done | Refused | Crashed

  class Driver {
    var tree: Tree                        // on the server
    const dirCache: Cache<Id, Listing>

    constructor (tree: Tree, ttl: int)
      requires WellFormed(tree)
      ensures this.tree == tree && Ok() && fresh(dirCache)
    {
      this.tree := tree;
      dirCache := new Cache<Id, Listing>(ttl);
    }

    function Cached(): Listings
      reads dirCache
    {
      map d | d in dirCache.data :: dirCache.data[d].value.items
    }

    /** The cache agrees with the server, and every listing was made with a handle that has its id. */
    ghost predicate Ok()
      reads this, dirCache
    {
      WellFormed(tree) && Coherent(Cached(), tree) && HandlesKnown()
    }

    ghost predicate HandlesKnown()
      reads dirCache
    {
      forall d :: d in dirCache.data ==> dirCache.data[d].value.handle == At(d)
    }

    /** The server lists a directory, in any order. */
    method GetFiles(d: Id) returns (listing: seq<Item>)
      ensures Shows(listing, tree, d)
    {
      listing := [];
      var left := tree.Keys;
      while left != {}
        invariant left <= tree.Keys
        invariant forall item :: item in listing <==> IsChild(tree, d, item) && item.id !in left
        invariant NoRepeats(listing)
        decreases left
      {
        var i :| i in left;
        if tree[i].parent == d {
          listing := listing + [Item(i, tree[i].name, tree[i].kind)];
        }
        left := left - {i};
      }
    }

    /** d: the directory, by its id or resolved from its path; handle: what the request carried. */
    method List(d: Id, handle: ParentRef, reload: bool, now: int, apiOk: bool) returns (r: Option<seq<Obj>>)
      requires WellFormed(tree) && Coherent(Cached(), tree) && IsDir(tree, d)
      modifies dirCache
      ensures Coherent(Cached(), tree)
      ensures handle == At(d) && old(HandlesKnown()) ==> HandlesKnown()
      ensures r.None? <==> !apiOk && (reload || old(d !in dirCache.data || dirCache.data[d].Expired(now)))
      ensures dirCache.data.Keys <= old(dirCache.data.Keys) + {d}
      ensures !reload ==> FreshStay(old(dirCache.data), dirCache.data, now)
      ensures !reload ==> NoneFresher(old(dirCache.data), dirCache.data, now, d, apiOk)
      ensures r.Some? ==> exists l: Listing {:trigger ObjsOf(l)} :: r.value == ObjsOf(l) && Shows(l.items, tree, d)
      ensures r.Some? ==> d in dirCache.data && r.value == ObjsOf(dirCache.data[d].value)
      ensures r.Some? && !reload && IsFresh(old(dirCache.data), d, now) ==> dirCache.data == old(dirCache.data)
      ensures r.Some? && (reload || !IsFresh(old(dirCache.data), d, now)) ==>
                var stored := dirCache.data[d];
                && dirCache.data == old(dirCache.data)[d := stored]
                && stored.value.handle == handle && stored.expiresAt == now + dirCache.defaultTTL
      ensures r.Some? && handle == At(d) && old(HandlesKnown()) ==>
                forall k :: 0 <= k < |r.value| ==> IsHandle(tree, r.value[k])
    {
      if reload {
        DropListing(d);
      }
      var l := ListCached(d, handle, now, apiOk);
      if l.None? {
        return None;
      }
      HandlesOf(tree, d, l.value);
      r := Some(ObjsOf(l.value));
    }

    /** The listing from the cache, or from the server on a miss. */
    method ListCached(d: Id, handle: ParentRef, now: int, apiOk: bool) returns (l: Option<Listing>)
      requires WellFormed(tree) && Coherent(Cached(), tree) && IsDir(tree, d)
      modifies dirCache
      ensures Coherent(Cached(), tree)
      ensures handle == At(d) && old(HandlesKnown()) ==> HandlesKnown() && (l.Some? ==> l.value.handle == At(d))
      ensures l.None? <==> !apiOk && old(d !in dirCache.data || dirCache.data[d].Expired(now))
      ensures dirCache.data.Keys <= old(dirCache.data.Keys) + {d}
      ensures FreshStay(old(dirCache.data), dirCache.data, now)
      ensures NoneFresher(old(dirCache.data), dirCache.data, now, d, apiOk)
      ensures l.Some? ==> Shows(l.value.items, tree, d)
      ensures l.Some? ==> d in dirCache.data && dirCache.data[d].value == l.value
      ensures l.Some? && IsFresh(old(dirCache.data), d, now) ==> dirCache.data == old(dirCache.data)
      ensures l.Some? && !IsFresh(old(dirCache.data), d, now) ==>
                && l.value.handle == handle
                && dirCache.data == old(dirCache.data)[d := Entry(l.value, now + dirCache.defaultTTL)]
    {
      var files := GetFiles(d);
      var loaded := if apiOk then Some(Listing(files, handle)) else None;
      ghost var before := Cached();
      if d in dirCache.data { assert Fits(before, tree, d); }
      var asked;
      l, asked := dirCache.GetOrLoad(d, now, loaded);
      assert Cached() == if !asked then before else if apiOk then before[d := files] else before - {d};
      AskedOrNot(before, tree, d, files);
    }

    /** Forgetting a listing keeps the rest in order. */
    method DropListing(d: Id)
      requires Coherent(Cached(), tree)
      modifies dirCache
      ensures Coherent(Cached(), tree) && (old(HandlesKnown()) ==> HandlesKnown())
      ensures dirCache.data == old(dirCache.data) - {d}
    {
      ghost var before := Cached();
      dirCache.Del(d);
      assert Cached() == before - {d};
      ForgetDoubtful(before, tree, {}, {d});
    }

    /** The driver forgets the listings under the given ids. */
    method DelAll(ids: set<Id>, ghost doubtful: set<Id>)
      requires CoherentBut(Cached(), tree, doubtful)
      modifies dirCache
      ensures CoherentBut(Cached(), tree, doubtful - ids) && (old(HandlesKnown()) ==> HandlesKnown())
      ensures dirCache.data == old(dirCache.data) - ids
    {
      ghost var before := Cached();
      var left := ids;
      while left != {}
        invariant left <= ids && dirCache.data == old(dirCache.data) - (ids - left)
        decreases left
      {
        var i :| i in left;
        dirCache.Del(i);
        left := left - {i};
      }
      assert Cached() == before - ids;
      ForgetDoubtful(before, tree, doubtful, ids);
    }

    /** Renames on the server, then forgets the listing of the parent the handle knows. A handle without a
        parent, as Mkdir returns them, crashes the driver after the request. The server refuses an object it
        does not have. */
    method ObjRename(obj: Obj, newName: string, apiOk: bool) returns (end: RenameEnd)
      requires WellFormed(tree) && Coherent(Cached(), tree)
      modifies this`tree, dirCache
      ensures end == if !apiOk || obj.id !in old(tree) then Refused else if obj.parent == Nil then Crashed else Done
      ensures end == Refused ==> tree == old(tree) && dirCache.data == old(dirCache.data)
      ensures end != Refused ==> tree == Renamed(old(tree), obj.id, newName) && WellFormed(tree)
      ensures dirCache.data == old(dirCache.data) - (if end == Done && obj.parent.At? then {obj.parent.id} else {})
      ensures end == Done && IsHandle(old(tree), obj) ==> Coherent(Cached(), tree)
      ensures old(HandlesKnown()) ==> HandlesKnown()
    {
      assert dirCache.data - {} == dirCache.data;
      if !apiOk || obj.id !in tree {
        return Refused;
      }
      RenameSpoilsParent(Cached(), tree, {}, obj.id, newName);
      ghost var p := tree[obj.id].parent;
      ghost var before := Cached();
      tree := Renamed(tree, obj.id, newName);
      if obj.parent == Nil {
        return Crashed;
      }
      if obj.parent.At? {
        dirCache.Del(obj.parent.id);
        assert Cached() == before - {obj.parent.id};
        ForgetDoubtful(before, tree, {} + {p}, {obj.parent.id});
        assert {} + {p} - {p} == {};
      }
      end := Done;
    }

    /** The loop of Mkdir, from the deepest directory that is there: one request for each missing
        name. newIds: what the server makes, None for a refused request. When it does not say the id
        (unnamed), the directory is listed to find it, which may fail. */
    method MkdirBelow(under: Id, names: seq<string>, newIds: seq<Option<Id>>, unnamed: nat -> bool,
                      lookFails: nat -> bool)
      returns (ok: bool, last: Id, made: nat)
      requires Ok() && IsDir(tree, under) && |newIds| == |names| > 0
      requires NewIds(tree, Cached(), newIds)
      modifies this`tree, dirCache
      requires !HasChild(tree, under, names[0])
      ensures HandlesKnown() && made <= |names|
      ensures ok ==> made == |names| && Coherent(Cached(), tree) && IsDir(tree, last) && newIds[made - 1] == Some(last)
      ensures ok ==> AllFound(unnamed, lookFails, made)
      ensures !ok ==> dirCache.data == old(dirCache.data)
      ensures !ok ==> (made < |names| && newIds[made].None?) || (made > 0 && unnamed(made - 1) && lookFails(made - 1))
      ensures Making(old(Cached()), old(tree), under, names, newIds, made, tree)
    {
      ghost var cached, was := Cached(), tree;
      ok, last, made := MakeAll(under, names, newIds, unnamed, lookFails, cached);
      if !ok {
        return;
      }
      MakingEnds(cached, was, under, names, newIds, tree);
      DelAll({under}, {under});
    }

    method MakeAll(under: Id, names: seq<string>, newIds: seq<Option<Id>>, unnamed: nat -> bool, lookFails: nat -> bool,
                   ghost cached: Listings)
      returns (ok: bool, last: Id, made: nat)
      requires WellFormed(tree) && Coherent(cached, tree) && IsDir(tree, under) && |newIds| == |names| > 0
      requires NewIds(tree, cached, newIds) && !HasChild(tree, under, names[0])
      modifies this`tree
      ensures made <= |names| && Making(cached, old(tree), under, names, newIds, made, tree)
      ensures ok ==> made == |names| && last == LastMade(under, newIds, made)
      ensures ok ==> AllFound(unnamed, lookFails, made)
      ensures !ok ==> GaveUp(names, newIds, unnamed, lookFails, made)
    {
      last, made := under, 0;
      ghost var was := tree;
      MakingBegins(cached, tree, under, names, newIds);
      while made < |names|
        invariant made <= |names|
        invariant Making(cached, was, under, names, newIds, made, tree) && last == LastMade(under, newIds, made)
        invariant AllFound(unnamed, lookFails, made)
      {
        var found;
        found, made := OneRound(under, names, newIds, made, last, unnamed, lookFails, cached, was);
        if found.None? {
          return false, last, made;
        }
        last := found.value;
      }
      ok := true;
    }

    /** One round of the loop. */
    method OneRound(under: Id, names: seq<string>, newIds: seq<Option<Id>>, k: nat, last: Id, unnamed: nat -> bool,
                    lookFails: nat -> bool, ghost cached: Listings, ghost was: Tree)
      returns (found: Option<Id>, made: nat)
      requires k < |names| == |newIds| && Making(cached, was, under, names, newIds, k, tree)
      requires last == LastMade(under, newIds, k) && AllFound(unnamed, lookFails, k)
      modifies this`tree
      ensures k <= made <= |names| && Making(cached, was, under, names, newIds, made, tree)
      ensures found.None? ==> GaveUp(names, newIds, unnamed, lookFails, made)
      ensures found.Some? ==> made == k + 1 && AllFound(unnamed, lookFails, made)
      ensures found.Some? ==> found.value == LastMade(under, newIds, made)
    {
      if newIds[k].None? {
        return None, k;
      }
      found := MakeNth(under, names, newIds, k, last, unnamed(k), lookFails(k), cached, was);
      made := k + 1;
    }

    /** The request for one name. */
    method MakeNth(under: Id, names: seq<string>, newIds: seq<Option<Id>>, k: nat, last: Id, unnamed: bool,
                   lookFails: bool, ghost cached: Listings, ghost was: Tree)
      returns (found: Option<Id>)
      requires k < |names| == |newIds| && Making(cached, was, under, names, newIds, k, tree)
      requires last == LastMade(under, newIds, k) && newIds[k].Some?
      modifies this`tree
      ensures Making(cached, was, under, names, newIds, k + 1, tree)
      ensures found == if unnamed && lookFails then None else Some(LastMade(under, newIds, k + 1))
    {
      assert IsNew(tree, cached, newIds[k..], 0) && newIds[k..][0] == newIds[k];
      NewIdsAfterOne(tree, cached, newIds[k..], last, names[k]);
      assert newIds[k..][1..] == newIds[k + 1..];
      MadeStep(cached, was, under, names, newIds, k, tree);
      found := MakeOne(last, names[k], newIds[k].value, unnamed, lookFails);
    }

    /** One request to make a directory, and finding out its id: None when it cannot be looked up. */
    method MakeOne(d: Id, name: string, id: Id, unnamed: bool, lookFails: bool) returns (found: Option<Id>)
      requires WellFormed(tree) && id !in tree && id != ROOT && id != d && !HasChild(tree, d, name)
      modifies this`tree
      ensures tree == Created(old(tree), id, d, name) && forall other :: !HasChild(tree, id, other)
      ensures found == if unnamed && lookFails then None else Some(id)
    {
      NothingInNew(tree, id, d, name);
      tree := Created(tree, id, d, name);
      if !unnamed {
        return Some(id);
      }
      if lookFails {
        return None;
      }
      var seen := FindFolder(d, name, id);
      found := Some(seen);
    }

    /** The id of the only object of a name, which is a new directory. */
    method FindFolder(d: Id, name: string, ghost made: Id) returns (id: Id)
      requires made in tree && tree[made] == Node(d, name, Dir)
      requires forall c :: c in tree && tree[c].parent == d && tree[c].name == name ==> c == made
      ensures id == made
    {
      var files := GetFiles(d);
      assert IsChild(tree, d, Item(made, name, Dir));
      var k := 0;
      while k < |files| && !(files[k].name == name && files[k].kind == Dir)
        invariant 0 <= k <= |files|
        invariant forall j :: 0 <= j < k ==> files[j] != Item(made, name, Dir)
      {
        k := k + 1;
      }
      assert IsChild(tree, d, files[k]);
      id := files[k].id;
    }

    /** Moves the items one by one, then forgets the parents that their handles name and the target. The
        server refuses an object it does not have. */
    method Move(items: seq<Obj>, target: Id, apiOk: nat -> bool) returns (ok: bool, done: nat)
      requires Ok() && IsDir(tree, target)
      modifies this`tree, dirCache
      ensures HandlesKnown() && done <= |items|
      ensures ok <==> done == |items|
      ensures forall k :: 0 <= k < done ==> apiOk(k)
      ensures !ok ==> !apiOk(done) || items[done].id !in tree
      ensures MovedSoFar(old(Cached()), old(tree), items, done, target, tree)
      ensures dirCache.data == if ok then old(dirCache.data) - (ParentIds(items) + {target}) else old(dirCache.data)
      ensures ok ==> CoherentBut(Cached(), tree,
                                 RealParents(old(tree), items) + {target} - (ParentIds(items) + {target}))
    {
      done := 0;
      ghost var cached := Cached();
      ghost var was := tree;
      MoveBegins(cached, tree, items, target);
      while done < |items|
        invariant 0 <= done <= |items| && dirCache.data == old(dirCache.data)
        invariant MovedSoFar(cached, was, items, done, target, tree)
        invariant forall k :: 0 <= k < done ==> apiOk(k)
      {
        if !apiOk(done) || items[done].id !in tree {
          return false, done;
        }
        MoveStep(cached, was, items, done, target, tree);
        tree := Moved(tree, items[done].id, target);
        done := done + 1;
      }
      MoveEnds(cached, was, items, target, tree);
      DelAll(ParentIds(items) + {target}, RealParents(was, items) + {target});
      ok := true;
    }

    /** The server deletes an object with all below it. */
    method ServerDelete(id: Id) returns (gone: set<Id>)
      requires WellFormed(tree) && id in tree
      modifies this`tree
      ensures IsSubtree(old(tree), id, gone) && tree == Deleted(old(tree), gone)
      ensures forall x :: x in old(tree) ==> (x in gone <==> Within(old(tree), x, id))
    {
      gone := {id};
      assert Above(tree, id, id, 0);
      while exists x :: x in tree && tree[x].parent in gone && x !in gone
        invariant id in gone && gone <= tree.Keys && tree == old(tree)
        invariant forall x :: x in gone && x != id ==> tree[x].parent in gone
        invariant forall x :: x in gone ==> Within(tree, x, id)
        decreases tree.Keys - gone
      {
        var x :| x in tree && tree[x].parent in gone && x !in gone;
        ChildIsWithin(tree, x, id);
        gone := gone + {x};
      }
      forall x | x in tree && Within(tree, x, id) ensures x in gone {
        var n: nat :| Above(tree, id, x, n);
        SubtreeHasAll(tree, id, gone, x, n);
      }
      tree := Deleted(tree, gone);
    }

    method DeleteItem(items: seq<Obj>, k: nat, ghost cached: Listings, ghost was: Tree)
      requires k < |items| && items[k].id in tree && ROOT !in was
      requires DeletedSoFar(cached, was, items, k, tree)
      modifies this`tree
      ensures DeletedSoFar(cached, was, items, k + 1, tree)
    {
      ghost var before := tree;
      var gone := ServerDelete(items[k].id);
      DeleteStep(cached, was, items, k, before, gone);
    }

    /** Deletes the items one by one, then forgets the parents that their handles name. The server refuses
        an object it does not have, for one that went with an earlier item. */
    method Delete(items: seq<Obj>, apiOk: nat -> bool) returns (ok: bool, done: nat)
      requires Ok()
      modifies this`tree, dirCache
      ensures HandlesKnown() && done <= |items| && (ok <==> done == |items|)
      ensures DeletedSoFar(old(Cached()), old(tree), items, done, tree)
      ensures forall k :: 0 <= k < done ==> apiOk(k)
      ensures !ok ==> !apiOk(done) || items[done].id !in tree
      ensures dirCache.data == if ok then old(dirCache.data) - ParentIds(items) else old(dirCache.data)
      ensures ok ==> CoherentBut(Cached(), tree, RealParents(old(tree), items) - ParentIds(items))
    {
      done := 0;
      ghost var cached := Cached();
      ghost var was := tree;
      DeleteBegins(cached, tree, items);
      while done < |items|
        invariant 0 <= done <= |items| && dirCache.data == old(dirCache.data)
        invariant DeletedSoFar(cached, was, items, done, tree)
        invariant forall k :: 0 <= k < done ==> apiOk(k)
      {
        if !apiOk(done) || items[done].id !in tree {
          return false, done;
        }
        DeleteItem(items, done, cached, was);
        done := done + 1;
      }
      DeleteEnds(cached, was, items, tree);
      DelAll(ParentIds(items), RealParents(was, items));
      ok := true;
    }

    /** Expired listings go; nothing else changes. */
    method Tick(now: int)
      requires Ok()
      modifies dirCache
      ensures Ok()
    {
      ghost var before := Cached();
      dirCache.Sweep(now);
      ghost var gone := before.Keys - Cached().Keys;
      assert Cached() == before - gone;
      ForgetDoubtful(before, tree, {}, gone);
    }
  }

  lemma AskedOrNot(before: Listings, tree: Tree, d: Id, files: seq<Item>)
    requires Coherent(before, tree) && Shows(files, tree, d)
    ensures Coherent(before[d := files], tree) && Coherent(before - {d}, tree)
  {
    Remember(before, tree, d, files);
    ForgetDoubtful(before, tree, {}, {d});
  }

  /** The objects of a true listing made by id are true handles. */
  lemma HandlesOf(tree: Tree, d: Id, l: Listing)
    requires Shows(l.items, tree, d)
    ensures l.handle == At(d) ==> forall k :: 0 <= k < |ObjsOf(l)| ==> IsHandle(tree, ObjsOf(l)[k])
  {
    forall k | 0 <= k < |l.items| ensures l.items[k].id in tree && tree[l.items[k].id].parent == d {
      assert IsChild(tree, d, l.items[k]);
    }
  }

  /** The first k of the items are moved, and no listings can be wrong but those of their parents and of
      the target. */
  ghost predicate MovedSoFar(cached: Listings, was: Tree, items: seq<Obj>, k: nat, target: Id, tree: Tree)
    requires k <= |items|
  {
    && AllThere(was, items[..k]) && tree == MoveAll(was, items[..k], target)
    && WellFormed(tree) && IsDir(tree, target)
    && CoherentBut(cached, tree, RealParents(was, items[..k]) + {target})
  }

  lemma MoveBegins(cached: Listings, tree: Tree, items: seq<Obj>, target: Id)
    requires WellFormed(tree) && IsDir(tree, target) && Coherent(cached, tree)
    ensures MovedSoFar(cached, tree, items, 0, target, tree)
  {
    WeakerBut(cached, tree, {}, RealParents(tree, items[..0]) + {target});
  }

  lemma MoveEnds(cached: Listings, was: Tree, items: seq<Obj>, target: Id, tree: Tree)
    requires MovedSoFar(cached, was, items, |items|, target, tree)
    ensures CoherentBut(cached, tree, RealParents(was, items) + {target})
  {
    assert items[..|items|] == items;
  }

  lemma MoveStep(cached: Listings, was: Tree, items: seq<Obj>, k: nat, target: Id, tree: Tree)
    requires k < |items| && items[k].id in tree && MovedSoFar(cached, was, items, k, target, tree)
    ensures items[k].id in was && MovedSoFar(cached, was, items, k + 1, target, Moved(tree, items[k].id, target))
  {
    var obj := items[k];
    var doubtful := RealParents(was, items[..k]) + {target};
    MoveAllParents(was, items[..k], target, obj.id);
    MoveSpoilsBoth(cached, tree, doubtful, obj.id, target);
    RealParentsGrow(was, items, k);
    assert items[..k + 1][..k] == items[..k] && items[..k + 1][k] == obj;
    assert items[..k + 1] == items[..k] + [obj];
    WeakerBut(cached, Moved(tree, obj.id, target), doubtful + {tree[obj.id].parent, target},
              RealParents(was, items[..k + 1]) + {target});
  }

  /** Ids the server will give to new directories, in order: None for a refused request. */
  predicate NewIds(tree: Tree, cached: Listings, newIds: seq<Option<Id>>) {
    forall k {:trigger IsNew(tree, cached, newIds, k)} :: 0 <= k < |newIds| ==> IsNew(tree, cached, newIds, k)
  }

  predicate IsNew(tree: Tree, cached: Listings, newIds: seq<Option<Id>>, k: nat)
    requires k < |newIds|
  {
    newIds[k].Some? ==> Unused(tree, cached, newIds[k].value) && newIds[k] !in newIds[..k]
  }

  lemma NewIdsAfterListing(tree: Tree, cached: Listings, cached': Listings, newIds: seq<Option<Id>>)
    requires NewIds(tree, cached, newIds) && cached'.Keys <= cached.Keys + tree.Keys + {ROOT}
    ensures NewIds(tree, cached', newIds)
  {
    forall k | 0 <= k < |newIds| ensures IsNew(tree, cached', newIds, k) {
      assert IsNew(tree, cached, newIds, k);
    }
  }

  lemma NewIdsAfterOne(tree: Tree, cached: Listings, newIds: seq<Option<Id>>, parent: Id, name: string)
    requires NewIds(tree, cached, newIds) && newIds != [] && newIds[0].Some?
    ensures NewIds(Created(tree, newIds[0].value, parent, name), cached, newIds[1..])
  {
    var rest := newIds[1..];
    forall k | 0 <= k < |rest| ensures IsNew(Created(tree, newIds[0].value, parent, name), cached, rest, k) {
      assert IsNew(tree, cached, newIds, k + 1);
      assert newIds[..k + 1] == [newIds[0]] + rest[..k];
    }
  }

  lemma NewIdsPrefix(tree: Tree, cached: Listings, newIds: seq<Option<Id>>, n: nat)
    requires NewIds(tree, cached, newIds) && n <= |newIds|
    ensures NewIds(tree, cached, newIds[..n])
  {
    forall k | 0 <= k < n ensures IsNew(tree, cached, newIds[..n], k) {
      assert IsNew(tree, cached, newIds, k) && newIds[..n][..k] == newIds[..k];
    }
  }

  predicate HasChild(tree: Tree, d: Id, name: string) {
    exists c :: c in tree && tree[c].parent == d && tree[c].name == name
  }

  /** A new directory is empty, and the only object of its name where there was none. */
  lemma NothingInNew(tree: Tree, id: Id, parent: Id, name: string)
    requires WellFormed(tree) && id !in tree && id != ROOT && id != parent && !HasChild(tree, parent, name)
    ensures var tree' := Created(tree, id, parent, name);
            && (forall c :: c in tree' && tree'[c].parent == parent && tree'[c].name == name ==> c == id)
            && forall other :: !HasChild(tree', id, other)
  {
    var tree' := Created(tree, id, parent, name);
    forall c | c in tree' ensures tree'[c].parent != id {
      if c != id { assert IsDir(tree, tree[c].parent); }
    }
    forall c | c in tree' && tree'[c].parent == parent && tree'[c].name == name ensures c == id {
      assert c != id ==> HasChild(tree, parent, name);
    }
  }

  /** The id of each of the first k directories became known. */
  ghost predicate AllFound(unnamed: nat -> bool, lookFails: nat -> bool, k: nat) {
    forall j :: 0 <= j < k ==> !(unnamed(j) && lookFails(j))
  }

  /** The next request is refused, or the directory just made cannot be found. */
  ghost predicate GaveUp(names: seq<string>, newIds: seq<Option<Id>>, unnamed: nat -> bool, lookFails: nat -> bool,
                         k: nat)
    requires |names| == |newIds|
  {
    (k < |names| && newIds[k].None?) || (k > 0 && unnamed(k - 1) && lookFails(k - 1))
  }

  function LastMade(under: Id, newIds: seq<Option<Id>>, k: nat): Id
    requires k <= |newIds| && (k > 0 ==> newIds[k - 1].Some?)
  {
    if k == 0 then under else newIds[k - 1].value
  }

  /** The first k directories are made, and no listing can be wrong but that of under. */
  ghost predicate MadeSoFar(cached: Listings, was: Tree, under: Id, names: seq<string>, newIds: seq<Option<Id>>, k: nat,
                            tree: Tree)
    requires k <= |names| == |newIds|
  {
    && (forall j :: 0 <= j < k ==> newIds[j].Some?)
    && tree == Chain(was, under, names, newIds, k)
    && WellFormed(tree) && IsDir(tree, LastMade(under, newIds, k))
    && CoherentBut(cached, tree, if k > 0 then {under} else {})
    && (k > 0 ==> LastMade(under, newIds, k) !in cached)
  }

  /** The loop of Mkdir after k rounds. */
  ghost predicate Making(cached: Listings, was: Tree, under: Id, names: seq<string>, newIds: seq<Option<Id>>, k: nat,
                         tree: Tree)
    requires k <= |names| == |newIds|
  {
    && MadeSoFar(cached, was, under, names, newIds, k, tree) && NewIds(tree, cached, newIds[k..])
    && (k < |names| ==> !HasChild(tree, LastMade(under, newIds, k), names[k]))
  }

  lemma MakingBegins(cached: Listings, tree: Tree, under: Id, names: seq<string>, newIds: seq<Option<Id>>)
    requires WellFormed(tree) && Coherent(cached, tree) && IsDir(tree, under)
    requires NewIds(tree, cached, newIds) && |newIds| == |names| > 0 && !HasChild(tree, under, names[0])
    ensures Making(cached, tree, under, names, newIds, 0, tree)
  {
    assert newIds[0..] == newIds;
  }

  lemma MakingEnds(cached: Listings, was: Tree, under: Id, names: seq<string>, newIds: seq<Option<Id>>, tree: Tree)
    requires |names| == |newIds| > 0 && Making(cached, was, under, names, newIds, |names|, tree)
    ensures CoherentBut(cached, tree, {under}) && {under} - {under} == {}
  {
  }

  lemma MadeStep(cached: Listings, was: Tree, under: Id, names: seq<string>, newIds: seq<Option<Id>>, k: nat,
                 tree: Tree)
    requires k < |names| == |newIds| && MadeSoFar(cached, was, under, names, newIds, k, tree)
    requires newIds[k].Some? && Unused(tree, cached, newIds[k].value)
    ensures MadeSoFar(cached, was, under, names, newIds, k + 1,
                      Created(tree, newIds[k].value, LastMade(under, newIds, k), names[k]))
  {
    var last := LastMade(under, newIds, k);
    var doubtful := if k > 0 then {under} else {};
    CreateSpoilsParent(cached, tree, doubtful, newIds[k].value, last, names[k]);
    OnlyUnderSpoiled(cached, Created(tree, newIds[k].value, last, names[k]), under, doubtful + {last});
  }

  /** One of the first k items is x or has x somewhere below it. */
  ghost predicate Hit(tree: Tree, items: seq<Obj>, k: nat, x: Id)
    requires k <= |items|
  {
    exists j :: 0 <= j < k && Within(tree, x, items[j].id)
  }

  /** The first k items are gone with all below them; the others are as they were; and no listings can be
      wrong but those of the items' parents. */
  ghost predicate DeletedSoFar(cached: Listings, was: Tree, items: seq<Obj>, k: nat, tree: Tree)
    requires k <= |items|
  {
    && WellFormed(tree) && Remains(was, tree)
    && (forall x {:trigger Hit(was, items, k, x)} :: x in was ==> (x in tree <==> !Hit(was, items, k, x)))
    && CoherentBut(cached, tree, RealParents(was, items[..k]))
  }

  predicate Remains(was: Tree, tree: Tree) {
    tree.Keys <= was.Keys && forall i :: i in tree ==> tree[i] == was[i]
  }

  lemma DeleteBegins(cached: Listings, tree: Tree, items: seq<Obj>)
    requires WellFormed(tree) && Coherent(cached, tree)
    ensures DeletedSoFar(cached, tree, items, 0, tree)
  {
    WeakerBut(cached, tree, {}, RealParents(tree, items[..0]));
  }

  lemma DeleteEnds(cached: Listings, was: Tree, items: seq<Obj>, tree: Tree)
    requires DeletedSoFar(cached, was, items, |items|, tree)
    ensures CoherentBut(cached, tree, RealParents(was, items))
  {
    assert items[..|items|] == items;
  }

  lemma DeleteStep(cached: Listings, was: Tree, items: seq<Obj>, k: nat, tree: Tree, gone: set<Id>)
    requires ROOT !in was && k < |items| && items[k].id in tree && DeletedSoFar(cached, was, items, k, tree)
    requires IsSubtree(tree, items[k].id, gone)
    requires forall x :: x in tree ==> (x in gone <==> Within(tree, x, items[k].id))
    ensures DeletedSoFar(cached, was, items, k + 1, Deleted(tree, gone))
  {
    DeleteSpoilsParent(cached, tree, RealParents(was, items[..k]), items[k].id, gone);
    RealParentsGrow(was, items, k);
    forall x | x in was ensures x in Deleted(tree, gone) <==> !Hit(was, items, k + 1, x) {
      assert Hit(was, items, k + 1, x) <==> Hit(was, items, k, x) || Within(was, x, items[k].id);
      if x in tree { WithinRest(was, tree, items[k].id, x); }
    }
  }

  lemma WithinRest(was: Tree, tree: Tree, id: Id, x: Id)
    requires WellFormed(tree) && ROOT !in was && Remains(was, tree) && x in tree
    ensures Within(tree, x, id) <==> Within(was, x, id)
  {
    forall n: nat ensures Above(tree, id, x, n) <==> Above(was, id, x, n) {
      AboveInRest(was, tree, id, x, n);
    }
  }

  lemma WeakerBut(cached: Listings, tree: Tree, less: set<Id>, more: set<Id>)
    requires CoherentBut(cached, tree, less) && less <= more
    ensures CoherentBut(cached, tree, more)
  {
    forall d | d in cached && d !in more ensures Fits(cached, tree, d) {
      assert d !in less;
    }
  }

  /** A directory without a cached listing cannot be spoiled. */
  lemma OnlyUnderSpoiled(cached: Listings, tree: Tree, under: Id, except: set<Id>)
    requires CoherentBut(cached, tree, except) && forall d :: d in except && d != under ==> d !in cached
    ensures CoherentBut(cached, tree, {under})
  {
    forall d | d in cached && d !in {under} ensures Fits(cached, tree, d) {
      assert d !in except;
    }
  }

  /** The tree with the first k of a chain of new directories below under. */
  function Chain(tree: Tree, under: Id, names: seq<string>, ids: seq<Option<Id>>, k: nat): Tree
    requires k <= |names| && k <= |ids| && forall j :: 0 <= j < k ==> ids[j].Some?
  {
    if k == 0 then tree
    else Created(Chain(tree, under, names, ids, k - 1), ids[k - 1].value, LastMade(under, ids, k - 1), names[k - 1])
  }
}
