/** The part of a download that looks at the disk: it reads the chunk directory and the output
    file, deletes what it cannot use, and hands out the plan. */
module Downloader {
  import opened Basics
  import opened TempNames
  import opened Planner

  /** A chunk file is worth keeping when it is as long as its name says. */
  predicate Usable(naming: Naming, name: string, content: Bytes) {
    var (s, e) := naming.parse(name);
    e - s > 0 && |content| == e - s + 1
  }

  function TempRange(naming: Naming, name: string): Range {
    var (s, e) := naming.parse(name);
    Range(s, e, true, naming.locate(name))
  }

  function Cleaned(naming: Naming, files: map<string, Bytes>): map<string, Bytes> {
    map name | name in files && Usable(naming, name, files[name]) :: files[name]
  }

  /** An entry named like a chunk whose size cannot be read; it stops the planning. */
  predicate Blocked(naming: Naming, name: string, statFails: string -> bool) {
    var (s, e) := naming.parse(name);
    e - s > 0 && statFails(name)
  }

  /** entries lists the names of a directory, each once. */
  ghost predicate Enumerates(entries: seq<string>, files: map<string, Bytes>) {
    && (forall name :: name in entries <==> name in files)
    && (forall i {:trigger FirstSeen(entries, i)} :: 0 <= i < |entries| ==> FirstSeen(entries, i))
  }

  predicate FirstSeen(entries: seq<string>, i: nat)
    requires i < |entries|
  {
    entries[i] !in entries[..i]
  }

  /** The directory once the entries looked at so far are cleaned; stuck: deleting an entry fails, which the
      scan ignores. */
  function Swept(naming: Naming, files: map<string, Bytes>, seen: seq<string>, stuck: string -> bool)
    : map<string, Bytes>
  {
    map name | name in files && (name in seen ==> Usable(naming, name, files[name]) || stuck(name)) :: files[name]
  }

  /** The directory without the unusable files, but for those that cannot be deleted. */
  function Tidied(naming: Naming, files: map<string, Bytes>, stuck: string -> bool): map<string, Bytes> {
    map name | name in files && (Usable(naming, name, files[name]) || stuck(name)) :: files[name]
  }

  /** What the scan has collected: the start of every usable entry seen, and for each collected
      start a usable range that begins there; no start twice when no two usable files share one. */
  ghost predicate Scanned(naming: Naming, files: map<string, Bytes>, seen: seq<string>,
                          keys: seq<int>, rangeMap: map<int, Range>)
  {
    && (forall i :: 0 <= i < |keys| ==> keys[i] in rangeMap && Found(naming, files, seen, keys[i], rangeMap[keys[i]]))
    && (forall name :: name in seen && name in Cleaned(naming, files) ==> naming.parse(name).0 in keys)
    && (DistinctStarts(files, naming) ==> forall i, j :: 0 <= i < j < |keys| ==> keys[i] != keys[j])
  }

  ghost predicate Found(naming: Naming, files: map<string, Bytes>, seen: seq<string>, s: int, r: Range) {
    r.start == s && exists name :: name in seen && name in Cleaned(naming, files) && r == TempRange(naming, name)
  }

  /** No two usable chunk files begin at the same byte. */
  ghost predicate DistinctStarts(files: map<string, Bytes>, naming: Naming) {
    forall n {:trigger SoleWithStart(files, naming, n)} ::
      n in Cleaned(naming, files) ==> SoleWithStart(files, naming, n)
  }

  ghost predicate SoleWithStart(files: map<string, Bytes>, naming: Naming, n: string) {
    forall m :: m in Cleaned(naming, files) && naming.parse(m).0 == naming.parse(n).0 ==> m == n
  }

  lemma SweptGrows(naming: Naming, files: map<string, Bytes>, seen: seq<string>, stuck: string -> bool, name: string)
    requires name in files && name !in seen
    ensures name in Swept(naming, files, seen, stuck) && Swept(naming, files, seen, stuck)[name] == files[name]
    ensures Swept(naming, files, seen + [name], stuck)
            == if Usable(naming, name, files[name]) || stuck(name) then Swept(naming, files, seen, stuck)
               else Swept(naming, files, seen, stuck) - {name}
  {
  }

  /** Nothing changed but that some unusable files are gone. */
  ghost predicate OnlySwept(naming: Naming, was: map<string, Bytes>, files: map<string, Bytes>) {
    && (forall name :: name in files ==> name in was && files[name] == was[name])
    && (forall name :: name in was && Usable(naming, name, was[name]) ==> name in files)
  }

  /** Sweeping never touches a usable file, and a full sweep leaves nothing else but what it cannot delete. */
  lemma SweptKeeps(naming: Naming, files: map<string, Bytes>, seen: seq<string>, stuck: string -> bool)
    ensures OnlySwept(naming, files, Swept(naming, files, seen, stuck))
    ensures Enumerates(seen, files) ==> Swept(naming, files, seen, stuck) == Tidied(naming, files, stuck)
  {
  }

  /** An entry that is not a chunk file of its full length is deleted if it can be, and no chunk file is kept
      for it; one not named like a chunk stops nothing, even when its size cannot be read. */
  lemma WhatBecomesOf(naming: Naming, files: map<string, Bytes>, stuck: string -> bool, statFails: string -> bool,
                      name: string)
    requires name in files
    ensures var (s, e) := naming.parse(name);
            && (name in Cleaned(naming, files) <==> s < e && |files[name]| == e - s + 1)
            && (name in Tidied(naming, files, stuck) <==> name in Cleaned(naming, files) || stuck(name))
            && (Blocked(naming, name, statFails) <==> s < e && statFails(name))
            && (name in Cleaned(naming, files) ==>
                  && TempRange(naming, name) == Range(s, e, true, naming.locate(name))
                  && Cleaned(naming, files)[name] == files[name])
  {
  }

  predicate SortedInts(s: seq<int>) {
    forall i, j :: 0 <= i < j < |s| ==> s[i] <= s[j]
  }

  function InsertSorted(x: int, s: seq<int>): seq<int> {
    if s == [] || x <= s[0] then [x] + s else [s[0]] + InsertSorted(x, s[1..])
  }

  lemma {:induction false} InsertSortedElements(x: int, s: seq<int>)
    ensures multiset(InsertSorted(x, s)) == multiset(s) + multiset{x}
  {
    if s != [] && x > s[0] {
      InsertSortedElements(x, s[1..]);
      assert s == [s[0]] + s[1..];
    }
  }

  lemma InsertSortedMembers(x: int, s: seq<int>, y: int)
    ensures y in InsertSorted(x, s) ==> y == x || y in s
  {
    InsertSortedElements(x, s);
    assert y in InsertSorted(x, s) ==> y in multiset(InsertSorted(x, s));
    assert y in multiset(s) ==> y in s;
  }

  lemma SortedCons(x: int, s: seq<int>)
    requires SortedInts(s) && forall k :: 0 <= k < |s| ==> x <= s[k]
    ensures SortedInts([x] + s)
  {
  }

  lemma {:induction false} InsertSortedSorts(x: int, s: seq<int>)
    requires SortedInts(s)
    ensures SortedInts(InsertSorted(x, s))
  {
    if s == [] {
    } else if x <= s[0] {
      SortedCons(x, s);
    } else {
      InsertSortedSorts(x, s[1..]);
      var rest := InsertSorted(x, s[1..]);
      forall k | 0 <= k < |rest| ensures s[0] <= rest[k] {
        InsertSortedMembers(x, s[1..], rest[k]);
      }
      SortedCons(s[0], InsertSorted(x, s[1..]));
    }
  }

  function SortInts(s: seq<int>): seq<int> {
    if s == [] then [] else InsertSorted(s[0], SortInts(s[1..]))
  }

  lemma {:induction false} SortIntsSorts(s: seq<int>)
    ensures SortedInts(SortInts(s)) && multiset(SortInts(s)) == multiset(s)
  {
    if s != [] {
      SortIntsSorts(s[1..]);
      InsertSortedElements(s[0], SortInts(s[1..]));
      InsertSortedSorts(s[0], SortInts(s[1..]));
      assert s == [s[0]] + s[1..];
    }
  }

  /** temps lists the usable chunk files of a directory by start position. */
  ghost predicate ListsByStart(temps: seq<Range>, files: map<string, Bytes>, naming: Naming) {
    && (forall i, j :: 0 <= i < j < |temps| ==> temps[i].start <= temps[j].start)
    && (DistinctStarts(files, naming) ==> forall i, j :: 0 <= i < j < |temps| ==> temps[i].start < temps[j].start)
    && (forall i :: 0 <= i < |temps| ==> IsTemp(naming, files, temps[i]))
    && (forall i {:trigger SoleRange(temps, i)} :: 0 <= i < |temps| ==> SoleRange(temps, i))
    && (forall name :: name in Cleaned(naming, files) ==> StartListed(temps, naming.parse(name).0))
  }

  /** One range is listed for a start, if more than once. */
  predicate SoleRange(temps: seq<Range>, i: nat)
    requires i < |temps|
  {
    forall j :: 0 <= j < |temps| && temps[j].start == temps[i].start ==> temps[j] == temps[i]
  }

  ghost predicate IsTemp(naming: Naming, files: map<string, Bytes>, r: Range) {
    exists name :: name in Cleaned(naming, files) && r == TempRange(naming, name)
  }

  predicate StartListed(temps: seq<Range>, s: int) {
    exists i :: 0 <= i < |temps| && temps[i].start == s
  }

  /** With distinct starts every usable file is listed, so nothing already fetched is fetched again. */
  lemma EveryUsableFileIsListed(temps: seq<Range>, files: map<string, Bytes>, naming: Naming, name: string)
    requires ListsByStart(temps, files, naming) && DistinctStarts(files, naming) && name in Cleaned(naming, files)
    ensures TempRange(naming, name) in temps
  {
    assert StartListed(temps, naming.parse(name).0);
    var i :| 0 <= i < |temps| && temps[i].start == naming.parse(name).0;
    assert SoleWithStart(files, naming, name);
    assert IsTemp(naming, files, temps[i]);
    var other :| other in Cleaned(naming, files) && temps[i] == TempRange(naming, other);
    assert other == name;
  }

  /** All usable files are kept exactly when no two of them begin at the same byte: of those that do only
      one is listed, and the others are forgotten. */
  lemma AllKeptIff(temps: seq<Range>, files: map<string, Bytes>, dir: string)
    requires ListsByStart(temps, files, ChunkNaming(dir))
    ensures DistinctStarts(files, ChunkNaming(dir)) <==>
            forall name :: name in Cleaned(ChunkNaming(dir), files) ==> TempRange(ChunkNaming(dir), name) in temps
  {
    var naming := ChunkNaming(dir);
    if forall name :: name in Cleaned(naming, files) ==> TempRange(naming, name) in temps {
      forall n | n in Cleaned(naming, files) ensures SoleWithStart(files, naming, n) {
        var i :| 0 <= i < |temps| && temps[i] == TempRange(naming, n);
        assert SoleRange(temps, i);
        forall m | m in Cleaned(naming, files) && naming.parse(m).0 == naming.parse(n).0 ensures m == n {
          var j :| 0 <= j < |temps| && temps[j] == TempRange(naming, m);
          JoinIsInjective(dir, m, n);
        }
      }
    } else {
      var name :| name in Cleaned(naming, files) && TempRange(naming, name) !in temps;
      if DistinctStarts(files, naming) { EveryUsableFileIsListed(temps, files, naming, name); }
    }
  }

  lemma SameMembers(keys: seq<int>, scanned: seq<int>)
    requires multiset(keys) == multiset(scanned)
    ensures forall i :: 0 <= i < |keys| ==> keys[i] in scanned
    ensures forall s :: s in scanned ==> s in keys
  {
    forall i | 0 <= i < |keys| ensures keys[i] in scanned {
      assert keys[i] in multiset(keys);
    }
    forall s | s in scanned ensures s in keys {
      assert s in multiset(scanned);
    }
  }

  lemma {:induction false} DistinctCounts(s: seq<int>, x: int)
    requires forall i, j :: 0 <= i < j < |s| ==> s[i] != s[j]
    ensures multiset(s)[x] <= 1
  {
    if s != [] {
      DistinctCounts(s[1..], x);
      assert s == [s[0]] + s[1..];
      assert s[0] !in s[1..];
    }
  }

  lemma SortingKeepsDistinct(keys: seq<int>, scanned: seq<int>)
    requires multiset(keys) == multiset(scanned)
    requires forall i, j :: 0 <= i < j < |scanned| ==> scanned[i] != scanned[j]
    ensures forall i, j :: 0 <= i < j < |keys| ==> keys[i] != keys[j]
  {
    forall i, j | 0 <= i < j < |keys| ensures keys[i] != keys[j] {
      DistinctCounts(scanned, keys[j]);
      assert keys == keys[..j] + [keys[j]] + keys[j + 1..];
      assert multiset(keys)[keys[j]] >= multiset(keys[..j])[keys[j]] + 1;
    }
  }

  /** Sorting the collected starts and looking each up gives the listing by start. */
  lemma SortedListing(naming: Naming, files: map<string, Bytes>, entries: seq<string>,
                      scanned: seq<int>, keys: seq<int>, rangeMap: map<int, Range>, temps: seq<Range>)
    requires Enumerates(entries, files) && Scanned(naming, files, entries, scanned, rangeMap)
    requires SortedInts(keys) && multiset(keys) == multiset(scanned)
    requires LooksUp(temps, keys, rangeMap)
    ensures ListsByStart(temps, files, naming)
  {
    SameMembers(keys, scanned);
    forall i | 0 <= i < |temps| ensures temps[i].start == keys[i] && IsTemp(naming, files, temps[i]) {
      var k :| 0 <= k < |scanned| && scanned[k] == keys[i];
      assert Found(naming, files, entries, scanned[k], rangeMap[scanned[k]]);
    }
    forall name | name in Cleaned(naming, files) ensures StartListed(temps, naming.parse(name).0) {
      assert name in entries && naming.parse(name).0 in keys;
      var i :| 0 <= i < |keys| && keys[i] == naming.parse(name).0;
      assert temps[i].start == keys[i];
    }
    if DistinctStarts(files, naming) { SortingKeepsDistinct(keys, scanned); }
    StartsInOrder(temps, keys, rangeMap, DistinctStarts(files, naming));
  }

  lemma StartsInOrder(temps: seq<Range>, keys: seq<int>, rangeMap: map<int, Range>, distinct: bool)
    requires LooksUp(temps, keys, rangeMap) && SortedInts(keys)
    requires forall i :: 0 <= i < |temps| ==> temps[i].start == keys[i]
    requires distinct ==> forall i, j :: 0 <= i < j < |keys| ==> keys[i] != keys[j]
    ensures forall i, j :: 0 <= i < j < |temps| ==> temps[i].start <= temps[j].start
    ensures distinct ==> forall i, j :: 0 <= i < j < |temps| ==> temps[i].start < temps[j].start
    ensures forall i {:trigger SoleRange(temps, i)} :: 0 <= i < |temps| ==> SoleRange(temps, i)
  {
    forall i, j | distinct && 0 <= i < j < |temps| ensures temps[i].start < temps[j].start {
      assert keys[i] <= keys[j] && keys[i] != keys[j];
    }
  }

  /** One usable entry more. */
  lemma ScannedGrows(naming: Naming, files: map<string, Bytes>, seen: seq<string>, name: string,
                     keys: seq<int>, rangeMap: map<int, Range>)
    requires Scanned(naming, files, seen, keys, rangeMap)
    requires name in Cleaned(naming, files) && name !in seen
    ensures var s := naming.parse(name).0;
            Scanned(naming, files, seen + [name], keys + [s], rangeMap[s := TempRange(naming, name)])
  {
    var s := naming.parse(name).0;
    var seen', keys', map' := seen + [name], keys + [s], rangeMap[s := TempRange(naming, name)];
    assert name in seen';
    forall i | 0 <= i < |keys'| ensures keys'[i] in map' && Found(naming, files, seen', keys'[i], map'[keys'[i]]) {
      if keys'[i] != s {
        assert Found(naming, files, seen, keys[i], rangeMap[keys[i]]);
      }
    }
    assert keys'[|keys|] == s;
    forall other | other in seen' && other in Cleaned(naming, files) ensures naming.parse(other).0 in keys' {
      if other != name { assert other in seen; }
    }
    if DistinctStarts(files, naming) {
      assert SoleWithStart(files, naming, name);
      forall i | 0 <= i < |keys| ensures keys[i] != s {
        assert Found(naming, files, seen, keys[i], rangeMap[keys[i]]);
      }
    }
  }

  /** One unusable entry more. */
  lemma ScannedSkips(naming: Naming, files: map<string, Bytes>, seen: seq<string>, name: string,
                     keys: seq<int>, rangeMap: map<int, Range>)
    requires Scanned(naming, files, seen, keys, rangeMap) && name !in Cleaned(naming, files)
    ensures Scanned(naming, files, seen + [name], keys, rangeMap)
  {
    forall i | 0 <= i < |keys| ensures Found(naming, files, seen + [name], keys[i], rangeMap[keys[i]]) {
      assert Found(naming, files, seen, keys[i], rangeMap[keys[i]]);
    }
  }

  /** What one round of the scan must do with entry number k. */
  lemma ScanStep(naming: Naming, files: map<string, Bytes>, entries: seq<string>, stuck: string -> bool, k: nat,
                 keys: seq<int>, rangeMap: map<int, Range>)
    requires Enumerates(entries, files) && k < |entries|
    requires Scanned(naming, files, entries[..k], keys, rangeMap)
    ensures var name, next := entries[k], entries[..k + 1];
            var (s, e) := naming.parse(name);
            var swept := Swept(naming, files, entries[..k], stuck);
            && name in swept && swept[name] == files[name]
            && if Usable(naming, name, files[name])
               then Swept(naming, files, next, stuck) == swept
                    && Scanned(naming, files, next, keys + [s], rangeMap[s := TempRange(naming, name)])
               else Swept(naming, files, next, stuck) == (if stuck(name) then swept else swept - {name})
                    && Scanned(naming, files, next, keys, rangeMap)
  {
    var name := entries[k];
    assert FirstSeen(entries, k);
    assert entries[..k + 1] == entries[..k] + [name];
    SweptGrows(naming, files, entries[..k], stuck, name);
    if Usable(naming, name, files[name]) {
      assert name in Cleaned(naming, files);
      ScannedGrows(naming, files, entries[..k], name, keys, rangeMap);
    } else {
      ScannedSkips(naming, files, entries[..k], name, keys, rangeMap);
    }
  }

  /** The kept ranges in the order of the sorted keys. */
  lemma KeptInOrder(naming: Naming, files: map<string, Bytes>, entries: seq<string>,
                    scanned: seq<int>, rangeMap: map<int, Range>) returns (temps: seq<Range>)
    requires Enumerates(entries, files) && Scanned(naming, files, entries, scanned, rangeMap)
    ensures LooksUp(temps, SortInts(scanned), rangeMap)
    ensures ListsByStart(temps, files, naming)
  {
    var keys := SortInts(scanned);
    SortIntsSorts(scanned);
    SameMembers(keys, scanned);
    temps := seq(|keys|, i requires 0 <= i < |keys| && keys[i] in rangeMap => rangeMap[keys[i]]);
    SortedListing(naming, files, entries, scanned, keys, rangeMap, temps);
  }

  predicate LooksUp(temps: seq<Range>, keys: seq<int>, rangeMap: map<int, Range>) {
    |temps| == |keys| && forall i :: 0 <= i < |keys| ==> keys[i] in rangeMap && temps[i] == rangeMap[keys[i]]
  }

  /** The plan for what is left from kept range k on, once the bytes before start are dealt with. */
  function Rest(start: int, temps: seq<Range>, k: nat, total: int, c: int, name: Namer): seq<Range>
    requires c >= 2 && k <= |temps|
  {
    PlanFrom(start, temps[k..], total, c, name)
  }

  function Before(start: int, stop: int, c: int, name: Namer): seq<Range>
    requires c >= 2
  {
    if stop > start then GapRanges(start, stop - 1, c, name) else []
  }

  /** Some gap between the kept ranges, before the first or behind the last, is wider than one byte. */
  predicate WideGap(start: int, temps: seq<Range>, total: int)
    decreases |temps|
  {
    if temps == [] then total - start > 1
    else temps[0].start - start > 1 || WideGap(temps[0].end + 1, temps[1..], total)
  }

  /** What CalRange comes to: a plan, an error, or nothing, because it does not come back. */
  datatype CalResult = Planned(plan: seq<Range>) | Failed | Endless

  /** What CalRange makes of the kept ranges. */
  ghost predicate Result(r: CalResult, from: int, temps: seq<Range>, total: int, c: int, name: Namer)
    requires c >= 1
  {
    if c == 1 then r == if WideGap(from, temps, total) then Endless else Planned(temps)
    else r == Planned(PlanFrom(from, temps, total, c, name))
  }

  /** The ranges with the gap up to stop added, unless adding it does not come back. */
  function UpTo(start: int, stop: int, ranges: seq<Range>, c: int, name: Namer): Option<seq<Range>>
    requires c >= 1
  {
    if c == 1 && stop - start > 1 then None
    else Some(if stop > start then ranges + GapRanges(start, stop - 1, c, name) else ranges)
  }

  /** FillGaps in the middle of its loop. With chunk size 1 it adds nothing, and has met no wide gap so far. */
  ghost predicate Filling(done: seq<Range>, start: int, k: nat, from: int, temps: seq<Range>, total: int, c: int,
                          name: Namer)
    requires c >= 1
  {
    && k <= |temps|
    && if c >= 2 then done + Rest(start, temps, k, total, c, name) == PlanFrom(from, temps, total, c, name)
       else done == temps[..k] && WideGap(start, temps[k..], total) == WideGap(from, temps, total)
  }

  lemma FillBegins(from: int, temps: seq<Range>, total: int, c: int, name: Namer)
    requires c >= 1
    ensures Filling([], from, 0, from, temps, total, c, name)
  {
    assert temps[0..] == temps;
  }

  lemma FillStep(done: seq<Range>, start: int, k: nat, from: int, temps: seq<Range>, total: int, c: int, name: Namer)
    requires c >= 1 && k < |temps| && Filling(done, start, k, from, temps, total, c, name)
    ensures var added := UpTo(start, temps[k].start, done, c, name);
            if added == None then Result(Endless, from, temps, total, c, name)
            else Filling(added.value + [temps[k]], temps[k].end + 1, k + 1, from, temps, total, c, name)
  {
    if c >= 2 {
      var before := Before(start, temps[k].start, c, name);
      RestUnfolds(start, temps, k, total, c, name);
      Regroup(done, before, [temps[k]], Rest(temps[k].end + 1, temps, k + 1, total, c, name));
      assert before == [] ==> done + before == done;
    } else {
      assert temps[k..][1..] == temps[k + 1..];
      assert done + [] == done;
    }
  }

  lemma RestUnfolds(start: int, temps: seq<Range>, k: nat, total: int, c: int, name: Namer)
    requires c >= 2 && k < |temps|
    ensures Rest(start, temps, k, total, c, name)
            == Before(start, temps[k].start, c, name) + [temps[k]]
               + Rest(temps[k].end + 1, temps, k + 1, total, c, name)
  {
    PlanUnfold(start, temps[k..], total, c, name);
    assert temps[k..][1..] == temps[k + 1..];
  }

  lemma Regroup<T>(p: seq<T>, q: seq<T>, r: seq<T>, s: seq<T>)
    ensures p + (q + r + s) == (p + q + r) + s
  {
  }

  lemma FillEnds(done: seq<Range>, start: int, from: int, temps: seq<Range>, total: int, c: int, name: Namer)
    requires c >= 1 && Filling(done, start, |temps|, from, temps, total, c, name)
    ensures var added := UpTo(start, total, done, c, name);
            Result(if added == None then Endless else Planned(added.value), from, temps, total, c, name)
  {
    if c >= 2 {
      assert Rest(start, temps, |temps|, total, c, name) == Before(start, total, c, name);
    } else {
      assert temps[|temps|..] == [] && temps[..|temps|] == temps;
    }
  }

  /** AddRange in the middle of its loop. */
  ghost predicate Adding(grown: seq<Range>, next: int, ranges: seq<Range>, start: int, maxEnd: int, c: int, name: Namer)
    requires c >= 2 || (c == 1 && start == maxEnd)
  {
    && start <= next <= maxEnd
    && grown + GapRanges(next, maxEnd, c, name) == ranges + GapRanges(start, maxEnd, c, name)
    && LosesLast(maxEnd - next + 1, c) == LosesLast(maxEnd - start + 1, c)
  }

  /** One round of AddRange. */
  lemma AddRangeStep(grown: seq<Range>, next: int, ranges: seq<Range>, start: int, maxEnd: int, c: int, name: Namer)
    requires c >= 2 || (c == 1 && start == maxEnd)
    requires Adding(grown, next, ranges, start, maxEnd, c, name)
    ensures var end := Min(next + (c - 1), maxEnd);
            var more := if end == next then grown else grown + [Range(next, end, false, name(next, end))];
            && (end < maxEnd ==> end > next && Adding(more, end + 1, ranges, start, maxEnd, c, name))
            && (end == maxEnd ==> more == ranges + GapRanges(start, maxEnd, c, name)
                                  && (LosesLast(maxEnd - start + 1, c) <==> end == next))
  {
    var end := Min(next + (c - 1), maxEnd);
    LosesLastAfter(next, maxEnd, c);
    if end != next { GapJoin(grown, next, maxEnd, c, name); }
  }

  lemma GapJoin(grown: seq<Range>, next: int, maxEnd: int, c: int, name: Namer)
    requires c >= 2 && next < maxEnd
    ensures var end := Min(next + (c - 1), maxEnd);
            grown + GapRanges(next, maxEnd, c, name)
            == grown + [Range(next, end, false, name(next, end))]
               + (if end < maxEnd then GapRanges(end + 1, maxEnd, c, name) else [])
  {
  }

  class ChunkDownload {
    const naming: Naming
    const chunkSize: int
    const totalBytes: int
    const hasWriter: bool          // the caller supplied the output, so no output file is looked at
    var files: map<string, Bytes>  // the chunk directory
    var outputFile: Option<Bytes>
    var downloaded: int            // the progress counter

    constructor (tempDir: string, chunkSize: int, totalBytes: int, hasWriter: bool,
                 files: map<string, Bytes>, outputFile: Option<Bytes>)
      ensures naming == ChunkNaming(tempDir) && this.totalBytes == totalBytes && this.hasWriter == hasWriter
      ensures this.chunkSize == if chunkSize <= 0 then 10 * 1024 * 1024 else chunkSize
      ensures this.files == files && this.outputFile == outputFile && downloaded == 0
    {
      naming := ChunkNaming(tempDir);
      this.totalBytes, this.hasWriter := totalBytes, hasWriter;
      this.chunkSize := if chunkSize <= 0 then 1024 * 1024 * 10 else chunkSize;
      this.files, this.outputFile, downloaded := files, outputFile, 0;
    }

    function Name(): Namer {
      (s, e) => naming.Path(s, e)
    }

    function Written(): nat
      reads this
    {
      if !hasWriter && outputFile.Some? then |outputFile.value| else 0
    }

    /** None: with chunk size 1 a round that does not reach the end changes nothing, so the loop repeats it for
        ever. */
    method AddRange(start: int, maxEnd: int, ranges: seq<Range>) returns (r: Option<(int, seq<Range>)>)
      requires start <= maxEnd && chunkSize >= 1
      ensures r == None <==> chunkSize == 1 && start < maxEnd
      ensures r.Some? ==> r.value.1 == ranges + GapRanges(start, maxEnd, chunkSize, Name())
      ensures r.Some? ==> r.value.0 == if LosesLast(maxEnd - start + 1, chunkSize) then maxEnd else maxEnd + 1
    {
      var next, grown := start, ranges;
      while true
        invariant start <= next <= maxEnd && (chunkSize == 1 ==> next == start)
        invariant chunkSize >= 2 || start == maxEnd ==> Adding(grown, next, ranges, start, maxEnd, chunkSize, Name())
        decreases maxEnd - next
      {
        if chunkSize >= 2 || start == maxEnd { AddRangeStep(grown, next, ranges, start, maxEnd, chunkSize, Name()); }
        var end := next + (chunkSize - 1);
        if end > maxEnd { end := maxEnd; }
        var before := next;
        if end != next {
          grown := grown + [Range(next, end, false, naming.Path(next, end))];
          next := end + 1;
        }
        if end >= maxEnd { break; }
        if next == before { return None; }
      }
      r := Some((next, grown));
    }

    /** Adds the gap up to stop, if there is one. */
    method AddUpTo(start: int, stop: int, ranges: seq<Range>) returns (r: Option<seq<Range>>)
      requires chunkSize >= 1
      ensures r == UpTo(start, stop, ranges, chunkSize, Name())
    {
      if stop <= start {
        return Some(ranges);
      }
      var added := AddRange(start, stop - 1, ranges);
      r := if added == None then None else Some(added.value.1);
    }

    /** One entry: a chunk file of full length is collected, and what cannot be used deleted. */
    method ScanEntry(entries: seq<string>, k: nat, statFails: string -> bool, stuck: string -> bool,
                     keys: seq<int>, rangeMap: map<int, Range>, ghost was: map<string, Bytes>)
      returns (ok: bool, keys': seq<int>, rangeMap': map<int, Range>)
      requires Enumerates(entries, was) && k < |entries|
      requires files == Swept(naming, was, entries[..k], stuck) && Scanned(naming, was, entries[..k], keys, rangeMap)
      modifies this`files
      ensures ok <==> !Blocked(naming, entries[k], statFails)
      ensures ok ==> files == Swept(naming, was, entries[..k + 1], stuck)
      ensures ok ==> Scanned(naming, was, entries[..k + 1], keys', rangeMap')
      ensures !ok ==> files == old(files)
    {
      var name := entries[k];
      ScanStep(naming, was, entries, stuck, k, keys, rangeMap);
      var (s, e) := naming.parse(name);
      if e - s > 0 {
        if statFails(name) {
          return false, keys, rangeMap;
        }
        if |files[name]| != e - s + 1 {
          if !stuck(name) { files := files - {name}; }
        } else {
          return true, keys + [s], rangeMap[s := Range(s, e, true, naming.locate(name))];
        }
      } else {
        if !stuck(name) { files := files - {name}; }
      }
      ok, keys', rangeMap' := true, keys, rangeMap;
    }

    /** The first loop of CalRange: deletes what cannot be used, where deleting works, and collects
        the rest. */
    method ScanDir(entries: seq<string>, statFails: string -> bool, stuck: string -> bool)
      returns (ok: bool, keys: seq<int>, rangeMap: map<int, Range>)
      requires Enumerates(entries, files)
      modifies this`files
      ensures ok <==> forall i :: 0 <= i < |entries| ==> !Blocked(naming, entries[i], statFails)
      ensures ok ==> files == Tidied(naming, old(files), stuck)
      ensures ok ==> Scanned(naming, old(files), entries, keys, rangeMap)
      ensures OnlySwept(naming, old(files), files)
    {
      ghost var was := files;
      keys, rangeMap := [], map[];
      var k := 0;
      while k < |entries|
        invariant 0 <= k <= |entries|
        invariant forall i :: 0 <= i < k ==> !Blocked(naming, entries[i], statFails)
        invariant files == Swept(naming, was, entries[..k], stuck)
        invariant Scanned(naming, was, entries[..k], keys, rangeMap)
      {
        ok, keys, rangeMap := ScanEntry(entries, k, statFails, stuck, keys, rangeMap, was);
        if !ok {
          SweptKeeps(naming, was, entries[..k], stuck);
          return;
        }
        k := k + 1;
      }
      assert entries[..k] == entries;
      SweptKeeps(naming, was, entries, stuck);
      ok := true;
    }

    /** The second loop of CalRange: fills the gaps between the kept chunk files. */
    method FillGaps(from: int, keys: seq<int>, rangeMap: map<int, Range>, ghost temps: seq<Range>)
      returns (r: CalResult)
      requires chunkSize >= 1
      requires LooksUp(temps, keys, rangeMap)
      ensures Result(r, from, temps, totalBytes, chunkSize, Name())
    {
      var start := from;
      var ranges := [];
      var k := 0;
      FillBegins(from, temps, totalBytes, chunkSize, Name());
      while k < |keys|
        invariant 0 <= k <= |keys| && Filling(ranges, start, k, from, temps, totalBytes, chunkSize, Name())
      {
        var kept := rangeMap[keys[k]];
        FillStep(ranges, start, k, from, temps, totalBytes, chunkSize, Name());
        var added := AddUpTo(start, kept.start, ranges);
        if added == None {
          return Endless;
        }
        ranges := added.value + [kept];
        start := kept.end + 1;
        k := k + 1;
      }
      FillEnds(ranges, start, from, temps, totalBytes, chunkSize, Name());
      var added := AddUpTo(start, totalBytes, ranges);
      r := if added == None then Endless else Planned(added.value);
    }

    /** What CalRange does with the collected ranges. */
    method PlanFromScan(scanned: seq<int>, rangeMap: map<int, Range>, ghost was: map<string, Bytes>,
                        ghost entries: seq<string>)
      returns (r: CalResult, ghost temps: seq<Range>)
      requires chunkSize >= 1
      requires Enumerates(entries, was) && Scanned(naming, was, entries, scanned, rangeMap)
      modifies this`downloaded
      ensures downloaded == old(downloaded) + Written()
      ensures ListsByStart(temps, was, naming) && Result(r, Written(), temps, totalBytes, chunkSize, Name())
    {
      var keys := SortInts(scanned);
      temps := KeptInOrder(naming, was, entries, scanned, rangeMap);
      var start := 0;
      if !hasWriter && outputFile.Some? {
        start := |outputFile.value|;
      }
      downloaded := downloaded + start;
      r := FillGaps(start, keys, rangeMap, temps);
    }

    /** dir is what reading the directory gave (None: it failed); statFails says for which entries
        asking for the size failed, stuck which cannot be deleted. */
    method CalRange(dir: Option<seq<string>>, statFails: string -> bool, stuck: string -> bool)
      returns (r: CalResult, ghost temps: seq<Range>)
      requires chunkSize >= 1
      requires dir.Some? ==> Enumerates(dir.value, files)
      modifies this`files, this`downloaded
      ensures r == Failed <==>
              dir == None || exists i :: 0 <= i < |dir.value| && Blocked(naming, dir.value[i], statFails)
      ensures r != Failed ==> files == Tidied(naming, old(files), stuck)
      ensures r != Failed ==>
                downloaded == old(downloaded) + (if !hasWriter && outputFile.Some? then |outputFile.value| else 0)
      ensures r != Failed ==>
                ListsByStart(temps, old(files), naming) && Result(r, Written(), temps, totalBytes, chunkSize, Name())
      ensures r == Failed ==> downloaded == old(downloaded)
      ensures OnlySwept(naming, old(files), files)
    {
      temps := [];
      if dir.None? { return Failed, temps; }
      var ok, scanned, rangeMap := ScanDir(dir.value, statFails, stuck);
      if !ok { return Failed, temps; }
      r, temps := PlanFromScan(scanned, rangeMap, old(files), dir.value);
    }
  }
}
