/** A driver used for a whole run of operations, in any order and with whatever the server answers. */
module Session {
  import opened Basics
  import opened Cache
  import opened Directory
  import opened DirectoryDriver

  /** What a caller can ask for. answers: per request to the server, whether it succeeds; newIds: the ids
      of new directories, None for a refused one. */
  datatype Request =
    | DoList(dir: Id, reload: bool, answer: bool)
    | DoRename(obj: Obj, newName: string, answer: bool)
    | DoMkdir(under: Id, names: seq<string>, newIds: seq<Option<Id>>, unnamed: nat -> bool, lookFails: nat -> bool)
    | DoMove(items: seq<Obj>, target: Id, answers: nat -> bool)
    | DoDelete(items: seq<Obj>, answers: nat -> bool)

  /** Handles that are as the server has them, live directories, and new ids the server never gave out. */
  predicate Allowed(tree: Tree, cached: Listings, req: Request) {
    match req
    case DoList(dir, _, _) => IsDir(tree, dir)
    case DoRename(obj, _, _) => IsHandle(tree, obj)
    case DoMkdir(under, names, newIds, _, _) =>
      && IsDir(tree, under) && |newIds| == |names| > 0 && NewIds(tree, cached, newIds)
      && !HasChild(tree, under, names[0])
    case DoMove(items, target, _) => IsDir(tree, target) && AreHandles(tree, items)
    case DoDelete(items, _) => AreHandles(tree, items)
  }

  predicate AreHandles(tree: Tree, items: seq<Obj>) {
    forall k :: 0 <= k < |items| ==> IsHandle(tree, items[k])
  }

  /** What a request that succeeds does to the tree. */
  ghost predicate Did(was: Tree, tree: Tree, req: Request)
    requires WellFormed(was)
  {
    match req
    case DoList(_, _, _) => tree == was
    case DoRename(obj, newName, _) => obj.id in was && tree == was[obj.id := was[obj.id].(name := newName)]
    case DoMkdir(under, names, newIds, _, _) =>
      && |newIds| == |names| && (forall k :: 0 <= k < |newIds| ==> newIds[k].Some?)
      && tree == Chain(was, under, names, newIds, |names|)
    case DoMove(items, target, _) => AllThere(was, items) && tree == MoveAll(was, items, target)
    case DoDelete(items, _) =>
      Remains(was, tree) && forall x :: x in was ==> (x in tree <==> !Hit(was, items, |items|, x))
  }

  /** An operation that succeeds does what it is to do and keeps the cache in agreement with the server. */
  method Perform(driver: Driver, req: Request, now: int) returns (ok: bool)
    requires driver.Ok() && Allowed(driver.tree, driver.Cached(), req)
    modifies driver`tree, driver.dirCache
    ensures ok ==> driver.Ok() && Did(old(driver.tree), driver.tree, req)
  {
    match req {
      case DoList(dir, reload, answer) =>
        var r := driver.List(dir, At(dir), reload, now, answer);
        ok := r.Some?;
      case DoRename(obj, newName, answer) =>
        var end := driver.ObjRename(obj, newName, answer);
        ok := end == Done;
      case DoMkdir(under, names, newIds, unnamed, lookFails) =>
        var last, made;
        ok, last, made := driver.MkdirBelow(under, names, newIds, unnamed, lookFails);
      case DoMove(items, target, answers) =>
        var done;
        TrueHandles(driver.tree, items);
        assert RealParents(driver.tree, items) + {target} - (ParentIds(items) + {target}) == {};
        ok, done := driver.Move(items, target, answers);
        assert items[..|items|] == items;
      case DoDelete(items, answers) =>
        var done;
        TrueHandles(driver.tree, items);
        assert RealParents(driver.tree, items) - ParentIds(items) == {};
        ok, done := driver.Delete(items, answers);
    }
  }

  /** The trees of a run, from the first to the one after all these requests. */
  ghost predicate DidAll(trees: seq<Tree>, requests: seq<Request>) {
    && |trees| == |requests| + 1
    && forall k :: 0 <= k < |requests| ==> WellFormed(trees[k]) && Did(trees[k], trees[k + 1], requests[k])
  }

  /** A run of operations, each allowed when its turn comes, with time passing and sweeps in between: if all
      of them succeed, in the end every cached listing of a live directory shows just what is there.
      done: how many were performed before one was not allowed or failed. */
  method Run(driver: Driver, requests: seq<Request>, clock: nat -> int) 
    returns (done: nat, ghost trees: seq<Tree>)
    requires driver.Ok()
    modifies driver`tree, driver.dirCache
    ensures done <= |requests|
    ensures done == |requests| ==> driver.Ok()
    ensures done == |requests| ==>
              DidAll(trees, requests) && trees[0] == old(driver.tree) && trees[done] == driver.tree
    ensures done == |requests| ==>
              forall d :: d in driver.dirCache.data && IsDir(driver.tree, d) ==>
                Shows(driver.dirCache.data[d].value.items, driver.tree, d)
  {
    done, trees := 0, [driver.tree];
    while done < |requests|
      invariant done <= |requests| && driver.Ok()
      invariant DidAll(trees, requests[..done]) && trees[0] == old(driver.tree) && trees[done] == driver.tree
    {
      driver.Tick(clock(2 * done));
      if !Allowed(driver.tree, driver.Cached(), requests[done]) {
        return;
      }
      var ok := Perform(driver, requests[done], clock(2 * done + 1));
      if !ok {
        return;
      }
      OneMoreDid(trees, requests, done, driver.tree);
      done, trees := done + 1, trees + [driver.tree];
    }
    assert requests[..|requests|] == requests;
    forall d | d in driver.dirCache.data && IsDir(driver.tree, d)
      ensures Shows(driver.dirCache.data[d].value.items, driver.tree, d)
    {
      assert Fits(driver.Cached(), driver.tree, d);
    }
  }

  lemma OneMoreDid(trees: seq<Tree>, requests: seq<Request>, k: nat, tree: Tree)
    requires k < |requests| && DidAll(trees, requests[..k]) && WellFormed(trees[k])
    requires Did(trees[k], tree, requests[k])
    ensures DidAll(trees + [tree], requests[..k + 1])
  {
    assert forall j :: 0 <= j < k ==> requests[..k + 1][j] == requests[..k][j];
  }
}
