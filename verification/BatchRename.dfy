/** Renaming everything below a directory of a drive whose objects are addressed by path (pan.BaseBatchRename
    with the List and ObjRename of baidu_netdisk). */
module BatchRename {
  import opened Basics

  datatype Node =
    | File(name: string, id: nat)
    | Dir(name: string, id: nat, kids: seq<Node>)

  /** What List hands out: the path of the directory it listed, and what it found there. */
  datatype Object = Object(path: seq<string>, name: string, id: nat, isDir: bool)

  type Func = Object -> string

  // ---------- the tree on the server ----------

  /** The position of the first node of a name, or the length. */
  function IndexOf(kids: seq<Node>, name: string): (i: nat)
    ensures i <= |kids| && (i < |kids| ==> kids[i].name == name)
    ensures forall j :: 0 <= j < i ==> kids[j].name != name
  {
    if kids == [] || kids[0].name == name then 0 else 1 + IndexOf(kids[1..], name)
  }

  /** What is in the directory at a path. */
  function KidsAt(root: seq<Node>, path: seq<string>): Option<seq<Node>>
    decreases |path|
  {
    if path == [] then Some(root)
    else
      var i := IndexOf(root, path[0]);
      if i < |root| && root[i].Dir? then KidsAt(root[i].kids, path[1..]) else None
  }

  /** The tree with other contents in the directory at a path. */
  function Put(root: seq<Node>, path: seq<string>, kids: seq<Node>): seq<Node>
    requires KidsAt(root, path).Some?
    decreases |path|
  {
    if path == [] then kids
    else
      var i := IndexOf(root, path[0]);
      root[i := root[i].(kids := Put(root[i].kids, path[1..], kids))]
  }

  predicate Taken(kids: seq<Node>, i: nat, name: string) {
    exists j :: 0 <= j < |kids| && j != i && kids[j].name == name
  }

  /** One rename request. The server refuses it when nothing is at the path or the name is taken. */
  datatype Op = Op(path: seq<string>, name: string, newName: string)

  function Rename(root: seq<Node>, op: Op): Option<seq<Node>> {
    var at := KidsAt(root, op.path);
    if at.None? then None
    else
      var i := IndexOf(at.value, op.name);
      if i == |at.value| || Taken(at.value, i, op.newName) then None
      else Some(Put(root, op.path, at.value[i := at.value[i].(name := op.newName)]))
  }

  /** One request after the other; None as soon as one is refused. */
  function RenameAll(root: seq<Node>, ops: seq<Op>): Option<seq<Node>>
    decreases |ops|
  {
    if ops == [] then Some(root)
    else
      var n := |ops| - 1;
      var r := RenameAll(root, ops[..n]);
      if r.None? then None else Rename(r.value, ops[n])
  }

  /** Names are unique in every directory. */
  predicate UniqueNames(kids: seq<Node>) {
    && Distinct(kids)
    && forall i :: 0 <= i < |kids| && kids[i].Dir? ==> UniqueNames(kids[i].kids)
  }

  predicate Distinct(kids: seq<Node>) {
    forall i {:trigger IndexOf(kids, kids[i].name)} :: 0 <= i < |kids| ==> IndexOf(kids, kids[i].name) == i
  }

  lemma {:induction false} PutLaws(root: seq<Node>, path: seq<string>, a: seq<Node>, b: seq<Node>)
    requires KidsAt(root, path).Some?
    ensures KidsAt(Put(root, path, a), path) == Some(a)
    ensures Put(Put(root, path, a), path, b) == Put(root, path, b)
    ensures Put(root, path, KidsAt(root, path).value) == root
    decreases |path|
  {
    if path != [] {
      var i := IndexOf(root, path[0]);
      PutLaws(root[i].kids, path[1..], a, b);
      SameNames(root, Put(root, path, a), path[0]);
    }
  }

  lemma {:induction false} SameNames(kids: seq<Node>, kids': seq<Node>, name: string)
    requires |kids| == |kids'| && forall i :: 0 <= i < |kids| ==> kids[i].name == kids'[i].name
    ensures IndexOf(kids', name) == IndexOf(kids, name)
  {
    if kids != [] { SameNames(kids[1..], kids'[1..], name); }
  }

  /** One name further down a path. */
  lemma {:induction false} Below(root: seq<Node>, path: seq<string>, name: string, below: seq<Node>)
    requires KidsAt(root, path).Some?
    requires var kids := KidsAt(root, path).value; var i := IndexOf(kids, name); i < |kids| && kids[i].Dir?
    ensures var kids := KidsAt(root, path).value;
            var i := IndexOf(kids, name);
            && KidsAt(root, path + [name]) == Some(kids[i].kids)
            && Put(root, path + [name], below) == Put(root, path, kids[i := kids[i].(kids := below)])
    decreases |path|
  {
    if path == [] {
      assert path + [name] == [name] && [name][1..] == [];
    } else {
      var i := IndexOf(root, path[0]);
      Below(root[i].kids, path[1..], name, below);
      assert (path + [name])[1..] == path[1..] + [name];
    }
  }

  lemma {:induction false} RenameAllJoin(root: seq<Node>, a: seq<Op>, b: seq<Op>)
    ensures var r := RenameAll(root, a);
            RenameAll(root, a + b) == if r.None? then None else RenameAll(r.value, b)
    decreases |b|
  {
    if b == [] {
      assert a + b == a;
    } else {
      var n := |b| - 1;
      RenameAllJoin(root, a, b[..n]);
      assert (a + b)[..|a + b| - 1] == a + b[..n];
    }
  }

  lemma OneRename(root: seq<Node>, op: Op)
    ensures RenameAll(root, [op]) == Rename(root, op)
  {
    assert [op][..0] == [];
    assert RenameAll(root, []) == Some(root);
  }

  // ---------- what a batch rename is to do ----------

  function NewName(x: Node, path: seq<string>, func: Func): string {
    func(Object(path, x.name, x.id, x.Dir?))
  }

  /** The nodes with each name replaced, all the way down. path: where they are before anything is renamed. */
  function Renamed(kids: seq<Node>, path: seq<string>, func: Func): (r: seq<Node>)
    ensures |r| == |kids|
  {
    if kids == [] then [] else [RenamedNode(kids[0], path, func)] + Renamed(kids[1..], path, func)
  }

  function RenamedNode(x: Node, path: seq<string>, func: Func): Node {
    match x
    case File(_, id) => File(NewName(x, path, func), id)
    case Dir(name, id, kids) => Dir(NewName(x, path, func), id, Renamed(kids, path + [name], func))
  }

  function OwnOp(x: Node, path: seq<string>, func: Func): seq<Op> {
    if NewName(x, path, func) == x.name then [] else [Op(path, x.name, NewName(x, path, func))]
  }

  /** The requests in the order of the code: first what is in a directory, then the directory. */
  function PostOrder(kids: seq<Node>, path: seq<string>, func: Func): seq<Op> {
    if kids == [] then []
    else InsideOps(kids[0], path, func) + OwnOp(kids[0], path, func) + PostOrder(kids[1..], path, func)
  }

  function InsideOps(x: Node, path: seq<string>, func: Func): seq<Op> {
    match x
    case File(_, _) => []
    case Dir(name, _, kids) => PostOrder(kids, path + [name], func)
  }

  /** In no directory is the new name of a node the new name or the old name of a later one. */
  predicate NoCollisions(kids: seq<Node>, path: seq<string>, func: Func) {
    kids == [] ||
    (&& (kids[0].Dir? ==> NoCollisions(kids[0].kids, path + [kids[0].name], func))
     && IsFree(NewName(kids[0], path, func), kids[1..], path, func)
     && NoCollisions(kids[1..], path, func))
  }

  predicate IsFree(name: string, kids: seq<Node>, path: seq<string>, func: Func) {
    forall j :: 0 <= j < |kids| ==> kids[j].name != name && NewName(kids[j], path, func) != name
  }

  /** None of the new names is already there. */
  predicate Apart(done: seq<Node>, kids: seq<Node>, path: seq<string>, func: Func) {
    forall j :: 0 <= j < |kids| ==> !Has(done, NewName(kids[j], path, func))
  }

  predicate Has(kids: seq<Node>, name: string) {
    exists j :: 0 <= j < |kids| && kids[j].name == name
  }

  // ---------- the outcome, place by place ----------

  /** The node at a place: its position in the directory, that of its kid, and so on. */
  function NodeAt(kids: seq<Node>, place: seq<nat>): Option<Node>
    decreases |place|
  {
    if place == [] || place[0] >= |kids| then None
    else if |place| == 1 then Some(kids[place[0]])
    else if kids[place[0]].Dir? then NodeAt(kids[place[0]].kids, place[1..])
    else None
  }

  /** The path of the directory that a node is in. */
  function PathTo(kids: seq<Node>, path: seq<string>, place: seq<nat>): seq<string>
    requires NodeAt(kids, place).Some?
    decreases |place|
  {
    if |place| == 1 then path else PathTo(kids[place[0]].kids, path + [kids[place[0]].name], place[1..])
  }

  /** Each object is where it was among its siblings, with its id and kind, under the name that func gave for
      it, as it was before and at the path where it was before. */
  ghost predicate EachRenamed(kids: seq<Node>, kids': seq<Node>, path: seq<string>, func: Func) {
    forall place {:trigger RenamedThere(kids, kids', path, func, place)} :: RenamedThere(kids, kids', path, func, place)
  }

  predicate RenamedThere(kids: seq<Node>, kids': seq<Node>, path: seq<string>, func: Func, place: seq<nat>) {
    match NodeAt(kids, place)
    case None => NodeAt(kids', place).None?
    case Some(x) =>
      && NodeAt(kids', place).Some?
      && var y := NodeAt(kids', place).value;
      && y.id == x.id && y.Dir? == x.Dir?
      && y.name == func(Object(PathTo(kids, path, place), x.name, x.id, x.Dir?))
  }

  lemma {:induction false} RenamedIsThere(kids: seq<Node>, path: seq<string>, func: Func, place: seq<nat>)
    ensures RenamedThere(kids, Renamed(kids, path, func), path, func, place)
    decreases |place|
  {
    if place != [] && place[0] < |kids| {
      var x := kids[place[0]];
      RenamedAt(kids, path, func, place[0]);
      if |place| > 1 && x.Dir? { RenamedIsThere(x.kids, path + [x.name], func, place[1..]); }
    }
  }

  /** There is only one such outcome. */
  lemma {:induction false} OneOutcome(kids: seq<Node>, a: seq<Node>, b: seq<Node>, path: seq<string>, func: Func)
    requires EachRenamed(kids, a, path, func) && EachRenamed(kids, b, path, func)
    ensures a == b
  {
    SameLength(kids, a, path, func);
    SameLength(kids, b, path, func);
    forall i | 0 <= i < |kids| ensures a[i] == b[i] {
      assert RenamedThere(kids, a, path, func, [i]) && RenamedThere(kids, b, path, func, [i]);
      if kids[i].Dir? {
        var x := kids[i];
        InsideEachRenamed(kids, a, path, func, i);
        InsideEachRenamed(kids, b, path, func, i);
        OneOutcome(x.kids, a[i].kids, b[i].kids, path + [x.name], func);
      }
    }
  }

  lemma SameLength(kids: seq<Node>, kids': seq<Node>, path: seq<string>, func: Func)
    requires EachRenamed(kids, kids', path, func)
    ensures |kids'| == |kids|
  {
    assert RenamedThere(kids, kids', path, func, [|kids|]) && RenamedThere(kids, kids', path, func, [|kids'|]);
  }

  lemma InsideEachRenamed(kids: seq<Node>, kids': seq<Node>, path: seq<string>, func: Func, i: nat)
    requires EachRenamed(kids, kids', path, func) && i < |kids| && kids[i].Dir?
    ensures i < |kids'| && kids'[i].Dir?
    ensures EachRenamed(kids[i].kids, kids'[i].kids, path + [kids[i].name], func)
  {
    assert RenamedThere(kids, kids', path, func, [i]);
    forall place: seq<nat> ensures RenamedThere(kids[i].kids, kids'[i].kids, path + [kids[i].name], func, place) {
      if place != [] {
        assert ([i] + place)[1..] == place;
        assert RenamedThere(kids, kids', path, func, [i] + place);
      }
    }
  }

  // ---------- what it does ----------

  /** The request for one node, when those before it in the directory have their new names. */
  lemma OwnStep(root: seq<Node>, path: seq<string>, func: Func, done: seq<Node>, x: Node, rest: seq<Node>)
    requires KidsAt(root, path) == Some(done + [x] + rest) && Distinct(done + [x] + rest)
    ensures var name := NewName(x, path, func);
            RenameAll(root, OwnOp(x, path, func))
            == if Has(done, name) || Has(rest, name) then None
               else Some(Put(root, path, done + [x.(name := name)] + rest))
  {
    var kids, i, name := done + [x] + rest, |done|, NewName(x, path, func);
    assert kids[i] == x && IndexOf(kids, kids[i].name) == i;
    TakenIs(done, x, rest, name);
    if name == x.name {
      NotTaken(kids, i);
      PutLaws(root, path, kids, kids);
    } else {
      OneRename(root, Op(path, x.name, name));
      assert kids[i := x.(name := name)] == done + [x.(name := name)] + rest;
    }
  }

  lemma TakenIs(done: seq<Node>, x: Node, rest: seq<Node>, name: string)
    ensures Taken(done + [x] + rest, |done|, name) <==> Has(done, name) || Has(rest, name)
  {
    var kids := done + [x] + rest;
    if Has(done, name) {
      var j :| 0 <= j < |done| && done[j].name == name;
      assert kids[j].name == name;
    }
    if Has(rest, name) {
      var j :| 0 <= j < |rest| && rest[j].name == name;
      assert kids[|done| + 1 + j].name == name;
    }
  }

  lemma NotTaken(kids: seq<Node>, i: nat)
    requires i < |kids| && Distinct(kids)
    ensures !Taken(kids, i, kids[i].name)
  {
    assert IndexOf(kids, kids[i].name) == i;
    forall j | 0 <= j < |kids| && j != i ensures kids[j].name != kids[i].name {
      assert IndexOf(kids, kids[j].name) == j;
    }
  }

  /** A name nobody else has keeps the names distinct. */
  lemma DistinctAfter(kids: seq<Node>, i: nat, x: Node)
    requires i < |kids| && Distinct(kids) && !Taken(kids, i, x.name)
    ensures Distinct(kids[i := x])
  {
    var kids' := kids[i := x];
    forall j | 0 <= j < |kids'| ensures IndexOf(kids', kids'[j].name) == j {
      var k := IndexOf(kids', kids'[j].name);
      if k < j {
        assert IndexOf(kids, kids[j].name) == j && IndexOf(kids, kids[k].name) == k;
      }
    }
  }

  function InsideRenamed(x: Node, path: seq<string>, func: Func): Node {
    match x
    case File(_, _) => x
    case Dir(name, id, kids) => Dir(name, id, Renamed(kids, path + [name], func))
  }

  predicate NoneInside(x: Node, path: seq<string>, func: Func) {
    x.Dir? ==> NoCollisions(x.kids, path + [x.name], func)
  }

  predicate KidsUnique(kids: seq<Node>) {
    forall i :: 0 <= i < |kids| && kids[i].Dir? ==> UniqueNames(kids[i].kids)
  }

  /** What is in a directory is renamed under the directory's old name. */
  lemma {:induction false} InsideStep(root: seq<Node>, path: seq<string>, func: Func, done: seq<Node>, rest: seq<Node>)
    requires KidsAt(root, path) == Some(done + rest) && Distinct(done + rest) && rest != [] && KidsUnique(rest)
    ensures RenameAll(root, InsideOps(rest[0], path, func))
            == if !NoneInside(rest[0], path, func) then None
               else Some(Put(root, path, done + [InsideRenamed(rest[0], path, func)] + rest[1..]))
    decreases rest, 0
  {
    var kids, i, x := done + rest, |done|, rest[0];
    assert kids[i] == x && IndexOf(kids, kids[i].name) == i;
    assert kids[i := InsideRenamed(x, path, func)] == done + [InsideRenamed(x, path, func)] + rest[1..];
    if x.Dir? {
      Below(root, path, x.name, Renamed(x.kids, path + [x.name], func));
      var renamed := Renamed(x.kids, path + [x.name], func);
      assert [] + x.kids == x.kids && [] + renamed == renamed;
      BatchIs(root, path + [x.name], func, [], x.kids);
      assert Apart([], x.kids, path + [x.name], func);
    } else {
      assert done + [x] + rest[1..] == kids;
      PutLaws(root, path, kids, kids);
    }
  }

  predicate HeadGoes(done: seq<Node>, rest: seq<Node>, path: seq<string>, func: Func)
    requires rest != []
  {
    var name := NewName(rest[0], path, func);
    NoneInside(rest[0], path, func) && !Has(done, name) && !Has(rest[1..], name)
  }

  /** What is in the first node, and then the node. */
  lemma HeadStep(root: seq<Node>, path: seq<string>, func: Func, done: seq<Node>, rest: seq<Node>)
    requires KidsAt(root, path) == Some(done + rest) && Distinct(done + rest) && rest != [] && KidsUnique(rest)
    ensures var kids := done + [RenamedNode(rest[0], path, func)] + rest[1..];
            && (HeadGoes(done, rest, path, func) ==> Distinct(kids))
            && RenameAll(root, InsideOps(rest[0], path, func) + OwnOp(rest[0], path, func))
               == if HeadGoes(done, rest, path, func) then Some(Put(root, path, kids)) else None
    decreases rest, 1
  {
    var x, tail := rest[0], rest[1..];
    assert done + rest == done + [x] + tail;
    InsideStep(root, path, func, done, rest);
    RenameAllJoin(root, InsideOps(x, path, func), OwnOp(x, path, func));
    if NoneInside(x, path, func) {
      var x1 := InsideRenamed(x, path, func);
      SameDistinct(done, x, x1, tail);
      PutLaws(root, path, done + [x1] + tail, done + [RenamedNode(x, path, func)] + tail);
      OwnStep(Put(root, path, done + [x1] + tail), path, func, done, x1, tail);
      if HeadGoes(done, rest, path, func) { DistinctHead(done, x1, RenamedNode(x, path, func), tail); }
    }
  }

  lemma DistinctHead(done: seq<Node>, x: Node, x': Node, rest: seq<Node>)
    requires Distinct(done + [x] + rest) && !Has(done, x'.name) && !Has(rest, x'.name)
    ensures Distinct(done + [x'] + rest)
  {
    TakenIs(done, x, rest, x'.name);
    DistinctAfter(done + [x] + rest, |done|, x');
    assert (done + [x] + rest)[|done| := x'] == done + [x'] + rest;
  }

  lemma ApartHead(done: seq<Node>, rest: seq<Node>, path: seq<string>, func: Func)
    requires rest != []
    ensures Apart(done, rest, path, func)
            <==> !Has(done, NewName(rest[0], path, func)) && Apart(done, rest[1..], path, func)
  {
    if !Has(done, NewName(rest[0], path, func)) && Apart(done, rest[1..], path, func) {
      forall j | 0 <= j < |rest| ensures !Has(done, NewName(rest[j], path, func)) {
        if j > 0 { assert rest[j] == rest[1..][j - 1]; }
      }
    }
  }

  predicate Unwanted(name: string, kids: seq<Node>, path: seq<string>, func: Func) {
    forall j :: 0 <= j < |kids| ==> NewName(kids[j], path, func) != name
  }

  lemma ApartSnoc(done: seq<Node>, y: Node, rest: seq<Node>, path: seq<string>, func: Func)
    ensures Apart(done + [y], rest, path, func) <==> Apart(done, rest, path, func) && Unwanted(y.name, rest, path, func)
  {
    forall j | 0 <= j < |rest|
      ensures Has(done + [y], NewName(rest[j], path, func))
              <==> Has(done, NewName(rest[j], path, func)) || NewName(rest[j], path, func) == y.name
    {
      assert (done + [y])[|done|] == y && (done + [y])[..|done|] == done;
      TakenIs(done, y, [], NewName(rest[j], path, func));
      assert done + [y] + [] == done + [y];
    }
  }

  /** The condition of the whole batch, split at the first node. */
  lemma GoesOn(done: seq<Node>, rest: seq<Node>, path: seq<string>, func: Func)
    requires rest != []
    ensures NoCollisions(rest, path, func) && Apart(done, rest, path, func)
            <==> && HeadGoes(done, rest, path, func) && NoCollisions(rest[1..], path, func)
                 && Apart(done + [RenamedNode(rest[0], path, func)], rest[1..], path, func)
  {
    var name := NewName(rest[0], path, func);
    ApartHead(done, rest, path, func);
    ApartSnoc(done, RenamedNode(rest[0], path, func), rest[1..], path, func);
    assert IsFree(name, rest[1..], path, func) <==> !Has(rest[1..], name) && Unwanted(name, rest[1..], path, func);
  }

  /** All names replaced if none collide. */
  function Outcome(root: seq<Node>, path: seq<string>, func: Func, done: seq<Node>, rest: seq<Node>): Option<seq<Node>>
    requires KidsAt(root, path).Some?
  {
    if NoCollisions(rest, path, func) && Apart(done, rest, path, func)
    then Some(Put(root, path, done + Renamed(rest, path, func)))
    else None
  }

  lemma OutcomeStep(root: seq<Node>, path: seq<string>, func: Func, done: seq<Node>, rest: seq<Node>)
    requires KidsAt(root, path) == Some(done + rest) && rest != []
    ensures var done' := done + [RenamedNode(rest[0], path, func)];
            var root' := Put(root, path, done' + rest[1..]);
            && KidsAt(root', path) == Some(done' + rest[1..])
            && Outcome(root, path, func, done, rest)
               == if HeadGoes(done, rest, path, func) then Outcome(root', path, func, done', rest[1..]) else None
  {
    var done' := done + [RenamedNode(rest[0], path, func)];
    var after := done' + Renamed(rest[1..], path, func);
    GoesOn(done, rest, path, func);
    assert after == done + Renamed(rest, path, func);
    PutLaws(root, path, done' + rest[1..], after);
  }

  /** All of the requests go through if and only if no names collide; then every name is replaced. */
  lemma {:induction false} BatchIs(root: seq<Node>, path: seq<string>, func: Func, done: seq<Node>, rest: seq<Node>)
    requires KidsAt(root, path) == Some(done + rest) && Distinct(done + rest) && KidsUnique(rest)
    ensures RenameAll(root, PostOrder(rest, path, func)) == Outcome(root, path, func, done, rest)
    decreases rest, 2
  {
    if rest == [] {
      assert done + rest == done && done + Renamed(rest, path, func) == done;
      PutLaws(root, path, done, done);
      return;
    }
    HeadStep(root, path, func, done, rest);
    OutcomeStep(root, path, func, done, rest);
    RenameAllJoin(root, InsideOps(rest[0], path, func) + OwnOp(rest[0], path, func), PostOrder(rest[1..], path, func));
    if HeadGoes(done, rest, path, func) {
      var done' := done + [RenamedNode(rest[0], path, func)];
      BatchIs(Put(root, path, done' + rest[1..]), path, func, done', rest[1..]);
    }
  }

  lemma SameDistinct(done: seq<Node>, x: Node, x': Node, rest: seq<Node>)
    requires Distinct(done + [x] + rest) && x.name == x'.name
    ensures Distinct(done + [x'] + rest)
  {
    var kids, kids' := done + [x] + rest, done + [x'] + rest;
    forall i | 0 <= i < |kids'| ensures IndexOf(kids', kids'[i].name) == i {
      SameNames(kids, kids', kids[i].name);
      assert IndexOf(kids, kids[i].name) == i;
    }
  }

  lemma {:induction false} UniqueBelow(root: seq<Node>, path: seq<string>)
    requires UniqueNames(root) && KidsAt(root, path).Some?
    ensures UniqueNames(KidsAt(root, path).value)
    decreases |path|
  {
    if path != [] {
      UniqueBelow(root[IndexOf(root, path[0])].kids, path[1..]);
    }
  }

  /** The requests of a batch all go through if and only if no names collide, and then the tree is the old
      one with each name replaced by what func gives for the object as it was before the batch. */
  lemma BatchSucceedsIff(root: seq<Node>, path: seq<string>, func: Func)
    requires KidsAt(root, path).Some? && UniqueNames(KidsAt(root, path).value)
    ensures var kids := KidsAt(root, path).value;
            RenameAll(root, PostOrder(kids, path, func))
            == if NoCollisions(kids, path, func) then Some(Put(root, path, Renamed(kids, path, func))) else None
    ensures var kids := KidsAt(root, path).value; EachRenamed(kids, Renamed(kids, path, func), path, func)
  {
    var kids := KidsAt(root, path).value;
    forall place ensures RenamedThere(kids, Renamed(kids, path, func), path, func, place) {
      RenamedIsThere(kids, path, func, place);
    }
    assert [] + kids == kids && [] + Renamed(kids, path, func) == Renamed(kids, path, func);
    BatchIs(root, path, func, [], kids);
    assert Apart([], kids, path, func);
  }

  // ---------- the code ----------

  function ObjectOf(x: Node, path: seq<string>): Object { Object(path, x.name, x.id, x.Dir?) }

  ghost function Contents(root: seq<Node>, path: seq<string>): seq<Node> {
    var at := KidsAt(root, path);
    if at.None? then [] else at.value
  }

  /** The server; fails says which of the requests, in order, are refused for reasons of its own. */
  class Server {
    var root: seq<Node>
    var calls: nat
    const fails: nat -> bool

    constructor (root: seq<Node>, fails: nat -> bool)
      ensures this.root == root && calls == 0 && this.fails == fails
    {
      this.root, calls, this.fails := root, 0, fails;
    }

    method List(path: seq<string>) returns (r: Option<seq<Object>>)
      modifies this`calls
      ensures calls == old(calls) + 1
      ensures r.None? ==> fails(calls - 1) || KidsAt(root, path).None?
      ensures r.Some? ==> && KidsAt(root, path).Some?
                          && |r.value| == |Contents(root, path)|
                          && forall k :: 0 <= k < |r.value| ==> r.value[k] == ObjectOf(Contents(root, path)[k], path)
    {
      calls := calls + 1;
      var at := KidsAt(root, path);
      r := if fails(calls - 1) || at.None? then None
           else Some(seq(|at.value|, k requires 0 <= k < |at.value| => ObjectOf(at.value[k], path)));
    }

    method ObjRename(obj: Object, newName: string) returns (ok: bool)
      modifies this
      ensures calls == old(calls) + 1
      ensures var r := Rename(old(root), Op(obj.path, obj.name, newName));
              && (ok <==> !fails(old(calls)) && r.Some?)
              && root == if ok then r.value else old(root)
    {
      var r := Rename(root, Op(obj.path, obj.name, newName));
      ok := !fails(calls) && r.Some?;
      root := if ok then r.value else root;
      calls := calls + 1;
    }
  }

  /** Why a batch stopped: the server had a reason of its own, or refused the next rename. */
  ghost predicate Refused(server: Server, ops: seq<Op>, done: seq<Op>)
    reads server
  {
    || (server.calls > 0 && server.fails(server.calls - 1))
    || (|done| < |ops| && Rename(server.root, ops[|done|]).None?)
  }

  ghost function NodeOps(x: Node, path: seq<string>, func: Func): seq<Op> {
    InsideOps(x, path, func) + OwnOp(x, path, func)
  }

  lemma {:induction false} PostOrderJoin(a: seq<Node>, b: seq<Node>, path: seq<string>, func: Func)
    ensures PostOrder(a + b, path, func) == PostOrder(a, path, func) + PostOrder(b, path, func)
    decreases |a|
  {
    if a == [] {
      assert a + b == b;
    } else {
      assert (a + b)[0] == a[0] && (a + b)[1..] == a[1..] + b;
      PostOrderJoin(a[1..], b, path, func);
    }
  }

  /** The requests for the first i objects, and for the next one. */
  lemma OpsUpTo(kids: seq<Node>, i: nat, path: seq<string>, func: Func)
    requires i < |kids|
    ensures var own := NodeOps(kids[i], path, func);
            && PostOrder(kids[..i + 1], path, func) == PostOrder(kids[..i], path, func) + own
            && PostOrder(kids[..i], path, func) + own <= PostOrder(kids, path, func)
  {
    var tail := kids[i + 1..];
    assert kids == kids[..i + 1] + tail && kids[..i + 1] == kids[..i] + [kids[i]];
    PostOrderJoin(kids[..i + 1], tail, path, func);
    PostOrderJoin(kids[..i], [kids[i]], path, func);
    assert PostOrder([kids[i]], path, func) == NodeOps(kids[i], path, func) + PostOrder([], path, func);
  }

  /** Just the first of the requests, each accepted, lead from one tree to the other. */
  ghost predicate CarriedOut(start: seq<Node>, ops: seq<Op>, done: seq<Op>, root: seq<Node>) {
    done <= ops && RenameAll(start, done) == Some(root)
  }

  /** The directory in the middle of its loop: some objects are done, the rest untouched. */
  ghost predicate Standing(root: seq<Node>, path: seq<string>, done: seq<Node>, rest: seq<Node>) {
    KidsAt(root, path) == Some(done + rest) && Distinct(done + rest) && KidsUnique(rest)
  }

  /** The batch in the middle of a directory: some objects are done, with all below them. */
  ghost predicate Midway(start: seq<Node>, root: seq<Node>, kids: seq<Node>, path: seq<string>, func: Func,
                         pre: seq<Node>, done: seq<Op>) {
    && |pre| <= |kids| && Standing(root, path, pre, kids[|pre|..])
    && done == PostOrder(kids[..|pre|], path, func) && RenameAll(start, done) == Some(root)
  }

  lemma MidwayBegins(start: seq<Node>, kids: seq<Node>, path: seq<string>, func: Func)
    requires KidsAt(start, path) == Some(kids) && UniqueNames(kids)
    ensures Midway(start, start, kids, path, func, [], [])
  {
    assert [] + kids == kids && kids[0..] == kids && kids[..0] == [];
  }

  lemma CarriedOn(start: seq<Node>, middle: seq<Node>, root: seq<Node>, all: seq<Op>, pre: seq<Op>, own: seq<Op>,
                  m: seq<Op>)
    requires RenameAll(start, pre) == Some(middle) && CarriedOut(middle, own, m, root) && pre + own <= all
    ensures CarriedOut(start, all, pre + m, root)
    ensures |m| < |own| ==> |pre + m| < |all| && all[|pre + m|] == own[|m|]
  {
    RenameAllJoin(start, pre, m);
    assert (pre + own)[..|pre + m|] == pre + m;
    assert |m| < |own| ==> (pre + own)[|pre + m|] == own[|m|];
  }

  lemma MidwayOn(start: seq<Node>, middle: seq<Node>, root: seq<Node>, kids: seq<Node>, path: seq<string>, func: Func,
                 pre: seq<Node>, done: seq<Op>, m: seq<Op>)
    requires Midway(start, middle, kids, path, func, pre, done) && |pre| < |kids|
    requires CarriedOut(middle, NodeOps(kids[|pre|], path, func), m, root)
    ensures var all, own := PostOrder(kids, path, func), NodeOps(kids[|pre|], path, func);
            var pre' := pre + [RenamedNode(kids[|pre|], path, func)];
            && CarriedOut(start, all, done + m, root)
            && (|m| < |own| ==> |done + m| < |all| && all[|done + m|] == own[|m|])
            && (m == own && Standing(root, path, pre', kids[|pre|..][1..]) ==>
                  Midway(start, root, kids, path, func, pre', done + m))
  {
    var all, own := PostOrder(kids, path, func), NodeOps(kids[|pre|], path, func);
    OpsUpTo(kids, |pre|, path, func);
    CarriedOn(start, middle, root, all, done, own, m);
    if m == own && Standing(root, path, pre + [RenamedNode(kids[|pre|], path, func)], kids[|pre|..][1..]) {
      MidwayNext(start, middle, root, kids, path, func, pre, done);
    }
  }

  lemma MidwayNext(start: seq<Node>, middle: seq<Node>, root: seq<Node>, kids: seq<Node>, path: seq<string>, func: Func,
                   pre: seq<Node>, done: seq<Op>)
    requires |pre| < |kids| && done == PostOrder(kids[..|pre|], path, func) && RenameAll(start, done) == Some(middle)
    requires RenameAll(middle, NodeOps(kids[|pre|], path, func)) == Some(root)
    requires Standing(root, path, pre + [RenamedNode(kids[|pre|], path, func)], kids[|pre|..][1..])
    ensures Midway(start, root, kids, path, func, pre + [RenamedNode(kids[|pre|], path, func)],
                   done + NodeOps(kids[|pre|], path, func))
  {
    OpsUpTo(kids, |pre|, path, func);
    RenameAllJoin(start, done, NodeOps(kids[|pre|], path, func));
    assert kids[|pre|..][1..] == kids[|pre| + 1..];
  }

  lemma MidwayEnds(start: seq<Node>, root: seq<Node>, kids: seq<Node>, path: seq<string>, func: Func,
                   pre: seq<Node>, done: seq<Op>)
    requires Midway(start, root, kids, path, func, pre, done) && |pre| == |kids|
    ensures done == PostOrder(kids, path, func) && CarriedOut(start, done, done, root)
  {
    assert kids[..|kids|] == kids;
  }

  lemma RefusedStaysRefused(start: seq<Node>, root: seq<Node>, ops: seq<Op>, done: seq<Op>)
    requires CarriedOut(start, ops, done, root) && |done| < |ops| && Rename(root, ops[|done|]).None?
    ensures RenameAll(start, ops).None?
  {
    OneRename(root, ops[|done|]);
    RenameAllJoin(start, done, [ops[|done|]]);
    RenameAllJoin(start, done + [ops[|done|]], ops[|done| + 1..]);
    assert ops == done + [ops[|done|]] + ops[|done| + 1..];
  }

  /** Lists the directory, and for each object there first renames what is in it and then the object. On
      an error just the requests done, a prefix of the post-order list, have been carried out. */
  method BaseBatchRename(server: Server, path: seq<string>, func: Func) returns (ok: bool, ghost done: seq<Op>)
    requires UniqueNames(Contents(server.root, path))
    modifies server
    ensures server.calls > old(server.calls)
    ensures var ops := PostOrder(Contents(old(server.root), path), path, func);
            && CarriedOut(old(server.root), ops, done, server.root)
            && (ok ==> done == ops && KidsAt(old(server.root), path).Some?)
            && (!ok ==> KidsAt(old(server.root), path).None? || Refused(server, ops, done))
    decreases Contents(server.root, path), 1
  {
    ghost var start, kids := server.root, Contents(server.root, path);
    done := [];
    var objs := server.List(path);
    if objs.None? {
      return false, [];
    }
    ghost var pre: seq<Node> := [];
    MidwayBegins(start, kids, path, func);
    for i := 0 to |objs.value|
      invariant server.calls > old(server.calls)
      invariant |pre| == i && Midway(start, server.root, kids, path, func, pre, done)
    {
      ghost var m, middle := [], server.root;
      ok, m := RenameOne(server, path, func, objs.value[i], pre, kids[i..]);
      MidwayOn(start, middle, server.root, kids, path, func, pre, done, m);
      done := done + m;
      if !ok {
        return false, done;
      }
      pre := pre + [RenamedNode(kids[i], path, func)];
    }
    MidwayEnds(start, server.root, kids, path, func, pre, done);
    ok := true;
  }

  /** The loop's body, for the first of the rest; those before it are done. */
  method RenameOne(server: Server, path: seq<string>, func: Func, obj: Object, ghost done: seq<Node>,
                   ghost rest: seq<Node>)
    returns (ok: bool, ghost m: seq<Op>)
    requires Standing(server.root, path, done, rest)
    requires rest != [] && obj == ObjectOf(rest[0], path)
    modifies server
    ensures server.calls >= old(server.calls)
    ensures var ops := NodeOps(rest[0], path, func);
            && CarriedOut(old(server.root), ops, m, server.root)
            && (ok ==> m == ops)
            && (!ok ==> Refused(server, ops, m))
    ensures ok ==> Standing(server.root, path, done + [RenamedNode(rest[0], path, func)], rest[1..])
    decreases rest, 0
  {
    ghost var x, start := rest[0], server.root;
    ghost var inside := InsideOps(x, path, func);
    m := [];
    if obj.isDir {
      NextIsThere(start, path, done, rest);
      ok, m := BaseBatchRename(server, path + [obj.name], func);
      if !ok {
        return;
      }
    }
    assert m == inside && RenameAll(start, inside) == Some(server.root);
    ghost var middle := server.root;
    var newName := func(obj);
    ok := true;
    RenameAllJoin(start, inside, OwnOp(x, path, func));
    if newName != obj.name {
      OneRename(middle, Op(path, x.name, newName));
      ok := server.ObjRename(obj, newName);
      if !ok {
        return;
      }
      m := m + [Op(path, x.name, newName)];
    }
    HeadStep(start, path, func, done, rest);
    ghost var kids := done + [RenamedNode(x, path, func)] + rest[1..];
    PutLaws(start, path, kids, kids);
  }

  lemma NextIsThere(root: seq<Node>, path: seq<string>, done: seq<Node>, rest: seq<Node>)
    requires KidsAt(root, path) == Some(done + rest) && Distinct(done + rest) && rest != [] && rest[0].Dir?
    ensures KidsAt(root, path + [rest[0].name]) == Some(rest[0].kids)
  {
    var i := |done|;
    assert (done + rest)[i] == rest[0] && IndexOf(done + rest, (done + rest)[i].name) == i;
    Below(root, path, rest[0].name, []);
  }

  /** The whole batch. When the server refuses nothing for reasons of its own, it succeeds if and only if
      no names collide; then the tree is the old one with each name replaced. */
  method BatchRename(server: Server, path: seq<string>, func: Func) returns (ok: bool)
    requires UniqueNames(Contents(server.root, path)) && KidsAt(server.root, path).Some?
    modifies server
    ensures server.calls > 0
    ensures ok ==> Done(old(server.root), server.root, path, func)
    ensures !ok && !server.fails(server.calls - 1) ==> !NoCollisions(Contents(old(server.root), path), path, func)
  {
    ghost var start, ops := server.root, PostOrder(Contents(server.root, path), path, func);
    ghost var done;
    ok, done := BaseBatchRename(server, path, func);
    if ok {
      AllCarriedOut(start, server.root, path, func, done);
    } else if !server.fails(server.calls - 1) {
      RefusedStaysRefused(start, server.root, ops, done);
      BatchSucceedsIff(start, path, func);
    }
  }

  /** No names collided, and every object below the path has its new name; nothing else has changed. */
  ghost predicate Done(start: seq<Node>, root: seq<Node>, path: seq<string>, func: Func) {
    var kids := Contents(start, path);
    && KidsAt(start, path).Some? && NoCollisions(kids, path, func)
    && root == Put(start, path, Renamed(kids, path, func))
    && EachRenamed(kids, Contents(root, path), path, func)
  }

  lemma AllCarriedOut(start: seq<Node>, root: seq<Node>, path: seq<string>, func: Func, ops: seq<Op>)
    requires KidsAt(start, path).Some? && UniqueNames(KidsAt(start, path).value)
    requires ops == PostOrder(Contents(start, path), path, func) && RenameAll(start, ops) == Some(root)
    ensures Done(start, root, path, func)
  {
    var kids := Contents(start, path);
    BatchSucceedsIff(start, path, func);
    PutLaws(start, path, Renamed(kids, path, func), kids);
  }

  // ---------- what the outcome means ----------

  /** The condition, one directory at a time and by positions. */
  lemma {:induction false} NoCollisionsIff(kids: seq<Node>, path: seq<string>, func: Func)
    ensures NoCollisions(kids, path, func) <==>
            forall i {:trigger Collides(kids, i, path, func)} :: 0 <= i < |kids| ==> !Collides(kids, i, path, func)
  {
    if kids != [] {
      var tail := kids[1..];
      NoCollisionsIff(tail, path, func);
      forall i | 0 <= i < |tail| ensures Collides(tail, i, path, func) <==> Collides(kids, i + 1, path, func) {
        assert tail[i] == kids[i + 1] && tail[i + 1..] == kids[i + 2..];
      }
      assert !Collides(kids, 0, path, func) <==>
             NoneInside(kids[0], path, func) && IsFree(NewName(kids[0], path, func), tail, path, func);
      assert forall i :: 0 < i < |kids| ==> (Collides(kids, i, path, func) <==> Collides(tail, i - 1, path, func));
    }
  }

  /** Names collide below a node, or its new name is the new or the old name of a later node beside it. */
  predicate Collides(kids: seq<Node>, i: nat, path: seq<string>, func: Func)
    requires i < |kids|
  {
    !NoneInside(kids[i], path, func) || !IsFree(NewName(kids[i], path, func), kids[i + 1..], path, func)
  }

  /** A path with the new names in it. */
  function NewPath(kids: seq<Node>, path: seq<string>, func: Func, below: seq<string>): (r: seq<string>)
    requires KidsAt(kids, below).Some?
    ensures |r| == |below|
    decreases |below|
  {
    if below == [] then []
    else
      var x := kids[IndexOf(kids, below[0])];
      [NewName(x, path, func)] + NewPath(x.kids, path + [x.name], func, below[1..])
  }

  lemma {:induction false} RenamedAt(kids: seq<Node>, path: seq<string>, func: Func, i: nat)
    requires i < |kids|
    ensures Renamed(kids, path, func)[i] == RenamedNode(kids[i], path, func)
  {
    if i > 0 { RenamedAt(kids[1..], path, func, i - 1); }
  }

  /** Each directory is afterwards at its path with the new names, and holds what it held, renamed. */
  lemma {:induction false} DirectoriesKeepTheirKids(kids: seq<Node>, path: seq<string>, func: Func, below: seq<string>)
    requires NoCollisions(kids, path, func) && KidsAt(kids, below).Some?
    ensures KidsAt(Renamed(kids, path, func), NewPath(kids, path, func, below))
            == Some(Renamed(KidsAt(kids, below).value, path + below, func))
    decreases |below|
  {
    if below == [] {
      assert path + below == path;
      return;
    }
    var x := OneDown(kids, path, func, below);
    var path' := path + [below[0]];
    assert path' + below[1..] == path + below;
    DirectoriesKeepTheirKids(x, path', func, below[1..]);
  }

  lemma OneDown(kids: seq<Node>, path: seq<string>, func: Func, below: seq<string>) returns (inside: seq<Node>)
    requires NoCollisions(kids, path, func) && KidsAt(kids, below).Some? && below != []
    ensures var path' := path + [below[0]];
            && NoCollisions(inside, path', func) && KidsAt(kids, below) == KidsAt(inside, below[1..])
            && KidsAt(Renamed(kids, path, func), NewPath(kids, path, func, below))
               == KidsAt(Renamed(inside, path', func), NewPath(inside, path', func, below[1..]))
  {
    var i := IndexOf(kids, below[0]);
    var x := kids[i];
    inside := x.kids;
    NewNameFinds(kids, path, func, i);
    NoCollisionsIff(kids, path, func);
    assert !Collides(kids, i, path, func);
    var rest := NewPath(x.kids, path + [x.name], func, below[1..]);
    assert NewPath(kids, path, func, below)[1..] == rest;
  }

  lemma NewNameFinds(kids: seq<Node>, path: seq<string>, func: Func, i: nat)
    requires i < |kids| && NoCollisions(kids, path, func)
    ensures var renamed := Renamed(kids, path, func);
            IndexOf(renamed, NewName(kids[i], path, func)) == i && renamed[i] == RenamedNode(kids[i], path, func)
  {
    var renamed, name := Renamed(kids, path, func), NewName(kids[i], path, func);
    NoCollisionsIff(kids, path, func);
    RenamedAt(kids, path, func, i);
    forall j | 0 <= j < i ensures renamed[j].name != name {
      RenamedAt(kids, path, func, j);
      assert !Collides(kids, j, path, func);
      assert kids[j + 1..][i - j - 1] == kids[i];
    }
  }

  lemma TwoFiles(a: string, b: string)
    requires a != b
    ensures UniqueNames([File(a, 1), File(b, 2)])
  {
    var kids := [File(a, 1), File(b, 2)];
    assert kids[1..] == [File(b, 2)];
    assert IndexOf(kids, a) == 0 && IndexOf(kids, b) == 1 + IndexOf(kids[1..], b);
  }

  /** New names that are all different are not enough: one that is still another object's is refused.
      So a batch never swaps two names. */
  lemma TakenForNow(a: string, b: string, c: string, func: Func)
    requires a != b && b != c && func(Object([], a, 1, false)) == b && func(Object([], b, 2, false)) == c
    ensures var kids := [File(a, 1), File(b, 2)];
            && UniqueNames(kids) && UniqueNames(Renamed(kids, [], func))
            && RenameAll(kids, PostOrder(kids, [], func)).None?
  {
    var kids := [File(a, 1), File(b, 2)];
    TwoFiles(a, b);
    TwoFiles(b, c);
    RenamedAt(kids, [], func, 0);
    RenamedAt(kids, [], func, 1);
    assert Renamed(kids, [], func) == [File(b, 1), File(c, 2)];
    assert kids[1..][0].name == NewName(kids[0], [], func);
    NoCollisionsIff(kids, [], func);
    assert Collides(kids, 0, [], func);
    BatchSucceedsIff(kids, [], func);
  }
}
