/** Downloads over many runs. A run leaves the output file and the chunk directory behind, at
    whatever moment it stops; the next run plans from what it finds there. */
module Resume {
  import opened Basics
  import opened TempNames
  import opened Planner
  import opened Downloader
  import opened Protocol
  import opened ProtocolInvariant
  import opened ProtocolSafety
  import opened ProtocolLiveness
  import opened ProtocolRuns

  // ---------- plans on the grid of chunk boundaries ----------

  predicate GridPoint(n: int, total: int, c: int)
    requires c >= 2
  {
    0 <= n <= total && (IsMultiple(n, c) || n == total)
  }

  predicate OnGrid(s: int, e: int, total: int, c: int)
    requires c >= 2
  {
    0 <= s < total && IsMultiple(s, c) && e == Min(s + c, total) - 1
  }

  predicate AllOnGrid(plan: seq<Range>, total: int, c: int)
    requires c >= 2
  {
    forall i :: 0 <= i < |plan| ==> OnGrid(plan[i].start, plan[i].end, total, c)
  }

  /** Two different grid points are at least c apart. */
  lemma {:induction false} GridApart(a: int, b: int, c: int)
    requires c >= 2 && IsMultiple(a, c) && IsMultiple(b, c) && a < b
    ensures a + c <= b
    decreases b
  {
    if a > 0 { GridApart(a - c, b - c, c); }
  }

  lemma AfterOnGrid(s: int, e: int, total: int, c: int)
    requires c >= 2 && OnGrid(s, e, total, c)
    ensures GridPoint(e + 1, total, c) && e + 1 <= total
  {
  }

  /** A byte total that leaves no single byte over. */
  predicate NoSingleByte(total: int, c: int)
    requires c >= 2
  {
    !IsMultiple(total - 1, c)
  }

  lemma NoSingleByteIff(total: nat, c: int)
    requires c >= 2
    ensures NoSingleByte(total, c) <==> total % c != 1
  {
    if total > 0 {
      MultipleIff(total - 1, c);
      var q := (total - 1) / c;
      if (total - 1) % c == 0 {
        ModIs(total, c, q, 1);
      } else if total % c == 1 {
        ModIs(total - 1, c, total / c, 0);
      }
    }
  }

  lemma NotOneBefore(start: int, stop: int, total: int, c: int)
    requires c >= 2 && NoSingleByte(total, c) && GridPoint(stop, total, c)
    requires IsMultiple(start, c) && start < stop
    ensures start + 2 <= stop && (start + c <= stop || stop == total)
  {
    if IsMultiple(stop, c) { GridApart(start, stop, c); }
  }

  lemma {:induction false} GapOnGrid(start: int, stop: int, total: int, c: int, name: Namer)
    requires c >= 2 && NoSingleByte(total, c)
    requires 0 <= start < stop && IsMultiple(start, c) && GridPoint(stop, total, c)
    ensures Tiles(GapRanges(start, stop - 1, c, name), start, stop)
    ensures AllOnGrid(GapRanges(start, stop - 1, c, name), total, c)
    decreases stop - start
  {
    NotOneBefore(start, stop, total, c);
    var end := Min(start + (c - 1), stop - 1);
    var first := Range(start, end, false, name(start, end));
    var rest := if end < stop - 1 then GapRanges(end + 1, stop - 1, c, name) else [];
    if end < stop - 1 {
      GapOnGrid(end + 1, stop, total, c, name);
    }
    assert ([first] + rest)[1..] == rest;
  }

  lemma {:induction false} TilesAppend(p: seq<Range>, q: seq<Range>, a: int, b: int, d: int)
    requires Tiles(p, a, b) && Tiles(q, b, d)
    ensures Tiles(p + q, a, d)
    decreases |p|
  {
    if p == [] {
      assert p + q == q;
    } else {
      TilesAppend(p[1..], q, p[0].end + 1, b, d);
      assert (p + q)[1..] == p[1..] + q;
    }
  }

  /** From a grid point, around chunk files on the grid, the plan tiles the rest of the file with
      ranges on the grid. */
  lemma {:induction false} PlanOnGrid(start: int, temps: seq<Range>, total: int, c: int, name: Namer)
    requires c >= 2 && NoSingleByte(total, c) && GridPoint(start, total, c)
    requires Placed(start, temps, total) && AllOnGrid(temps, total, c)
    ensures Tiles(PlanFrom(start, temps, total, c, name), start, total)
    ensures AllOnGrid(PlanFrom(start, temps, total, c, name), total, c)
    decreases |temps|
  {
    if temps == [] {
      if start < total { GapOnGrid(start, total, total, c, name); }
    } else {
      var first, rest := temps[0], temps[1..];
      AfterOnGrid(first.start, first.end, total, c);
      PlacedTail(start, temps, total);
      assert forall i :: 0 <= i < |rest| ==> rest[i] == temps[i + 1];
      PlanOnGrid(first.end + 1, rest, total, c, name);
      PlanUnfold(start, temps, total, c, name);
      OneMoreOnGrid(start, temps, PlanFrom(first.end + 1, rest, total, c, name), total, c, name);
    }
  }

  lemma OneMoreOnGrid(start: int, temps: seq<Range>, tail: seq<Range>, total: int, c: int, name: Namer)
    requires c >= 2 && NoSingleByte(total, c) && GridPoint(start, total, c) && temps != []
    requires start <= temps[0].start && OnGrid(temps[0].start, temps[0].end, total, c)
    requires Tiles(tail, temps[0].end + 1, total) && AllOnGrid(tail, total, c)
    ensures Tiles(Head(start, temps, total, c, name) + [temps[0]] + tail, start, total)
    ensures AllOnGrid(Head(start, temps, total, c, name) + [temps[0]] + tail, total, c)
  {
    var first := temps[0];
    var head := Head(start, temps, total, c, name);
    if start < first.start { GapOnGrid(start, first.start, total, c, name); }
    assert Tiles([first], first.start, first.end + 1) by { assert [first][1..] == []; }
    TilesAppend(head, [first], start, first.start, first.end + 1);
    TilesAppend(head + [first], tail, start, first.end + 1, total);
  }

  /** Tilings on the grid are unique up to flags and names. */
  predicate SameRanges(p: seq<Range>, q: seq<Range>) {
    |p| == |q| && forall i :: 0 <= i < |p| ==> p[i].start == q[i].start && p[i].end == q[i].end
  }

  lemma {:induction false} GridTilingUnique(p: seq<Range>, q: seq<Range>, start: int, total: int, c: int)
    requires c >= 2 && start <= total
    requires Tiles(p, start, total) && AllOnGrid(p, total, c)
    requires Tiles(q, start, total) && AllOnGrid(q, total, c)
    ensures SameRanges(p, q)
    decreases |p|
  {
    assert forall i :: 0 <= i < |p| ==> OnGrid(p[i].start, p[i].end, total, c);
    if p != [] && q != [] {
      assert OnGrid(p[0].start, p[0].end, total, c) && OnGrid(q[0].start, q[0].end, total, c);
      assert forall i :: 0 <= i < |p[1..]| ==> p[1..][i] == p[i + 1];
      assert forall i :: 0 <= i < |q[1..]| ==> q[1..][i] == q[i + 1];
      GridTilingUnique(p[1..], q[1..], p[0].end + 1, total, c);
    }
  }

  // ---------- the disk between runs ----------

  /** What a run leaves behind: the output (empty when there is no file) and the chunk directory. */
  datatype Disk = Disk(output: Bytes, files: map<string, Bytes>)

  datatype Job = Job(remote: Bytes, c: int, naming: Naming, concurrency: nat, maxThread: nat, maxRetry: nat) {
    ghost predicate Valid() {
      c >= 2 && NoSingleByte(|remote|, c) && |remote| <= MAX_INT64 && RoundTrips(naming)
    }

    function Total(): int { |remote| }

    function Name(): Namer { (s, e) => naming.Path(s, e) }
  }

  /** A usable chunk file that belongs where it is: on the grid, not before from, with the bytes of
      its range and under the name the program gives it. */
  predicate GoodFile(job: Job, from: int, name: string, content: Bytes)
    requires job.c >= 2
  {
    var (s, e) := job.naming.parse(name);
    && OnGrid(s, e, job.Total(), job.c) && from <= s
    && name == job.naming.entry(s, e)
    && content == job.remote[s..e + 1]
  }

  /** The invariant between runs: the output is a prefix of the remote file up to a grid point, and
      every usable chunk file is a good one behind it. */
  ghost predicate GoodDisk(job: Job, d: Disk)
    requires job.c >= 2
  {
    && d.output <= job.remote
    && GridPoint(|d.output|, job.Total(), job.c)
    && GoodFiles(job, |d.output|, d.files)
  }

  ghost predicate GoodFiles(job: Job, from: int, files: map<string, Bytes>)
    requires job.c >= 2
  {
    forall name {:trigger GoodFile(job, from, name, files[name])} ::
      name in files && Usable(job.naming, name, files[name]) ==> GoodFile(job, from, name, files[name])
  }

  /** What CalRange answers on this disk (PlanRun below). */
  ghost predicate IsPlanOf(job: Job, d: Disk, temps: seq<Range>, cfg: Config)
    requires job.c >= 2
  {
    && ListsByStart(temps, d.files, job.naming)
    && cfg == Config(PlanFrom(|d.output|, temps, job.Total(), job.c, job.Name()), job.remote, d.output,
                     job.concurrency, job.maxThread, job.maxRetry)
  }

  /** The planner as it is in the code: run on this disk, it answers such a plan. There is an output file, unless
      none and the output is empty. */
  method PlanRun(job: Job, dir: string, d: Disk, noFile: bool, entries: seq<string>)
    returns (cfg: Config, ghost temps: seq<Range>)
    requires job.c >= 2 && job.naming == ChunkNaming(dir)
    requires Enumerates(entries, d.files) && (noFile ==> d.output == [])
    ensures IsPlanOf(job, d, temps, cfg)
  {
    var cd := new ChunkDownload(dir, job.c, job.Total(), false, d.files, if noFile then None else Some(d.output));
    var r;
    r, temps := cd.CalRange(Some(entries), name => false, name => false);
    SamePlan(|d.output|, temps, job.Total(), job.c, cd.Name(), job.Name());
    cfg := Config(r.plan, job.remote, d.output, job.concurrency, job.maxThread, job.maxRetry);
  }

  /** Namers that agree make the same plan. */
  lemma {:induction false} SamePlan(start: int, temps: seq<Range>, total: int, c: int, f: Namer, g: Namer)
    requires c >= 2 && forall s, e :: f(s, e) == g(s, e)
    ensures PlanFrom(start, temps, total, c, f) == PlanFrom(start, temps, total, c, g)
    decreases |temps|
  {
    if temps == [] {
      SameGap(start, total - 1, c, f, g);
    } else {
      SameGap(start, temps[0].start - 1, c, f, g);
      SamePlan(temps[0].end + 1, temps[1..], total, c, f, g);
    }
  }

  lemma {:induction false} SameGap(start: int, maxEnd: int, c: int, f: Namer, g: Namer)
    requires c >= 2 && forall s, e :: f(s, e) == g(s, e)
    ensures GapRanges(start, maxEnd, c, f) == GapRanges(start, maxEnd, c, g)
    decreases maxEnd - start
  {
    if start < maxEnd { SameGap(Min(start + (c - 1), maxEnd) + 1, maxEnd, c, f, g); }
  }

  // ---------- the plan on a good disk ----------

  lemma KeptFile(job: Job, from: int, d: Disk, temps: seq<Range>, i: nat) returns (name: string)
    requires job.Valid() && GoodFiles(job, from, d.files)
    requires ListsByStart(temps, d.files, job.naming) && i < |temps|
    ensures name in Cleaned(job.naming, d.files) && temps[i] == TempRange(job.naming, name)
    ensures GoodFile(job, from, name, d.files[name])
    ensures temps[i].start < temps[i].end && OnGrid(temps[i].start, temps[i].end, job.Total(), job.c)
    ensures from <= temps[i].start && temps[i].completed
    ensures name == job.naming.entry(temps[i].start, temps[i].end)
  {
    assert IsTemp(job.naming, d.files, temps[i]);
    name :| name in Cleaned(job.naming, d.files) && temps[i] == TempRange(job.naming, name);
    assert GoodFile(job, from, name, d.files[name]);
  }

  lemma GoodStartsAreDistinct(job: Job, from: int, files: map<string, Bytes>)
    requires job.Valid() && GoodFiles(job, from, files)
    ensures DistinctStarts(files, job.naming)
  {
    forall n | n in Cleaned(job.naming, files) ensures SoleWithStart(files, job.naming, n) {
      assert GoodFile(job, from, n, files[n]);
      forall m | m in Cleaned(job.naming, files) && job.naming.parse(m).0 == job.naming.parse(n).0 ensures m == n {
        assert GoodFile(job, from, m, files[m]);
      }
    }
  }

  /** The chunk files kept on a good directory lie in order on the grid. */
  lemma KeptArePlaced(job: Job, from: int, d: Disk, temps: seq<Range>)
    requires job.Valid() && GoodFiles(job, from, d.files) && ListsByStart(temps, d.files, job.naming)
    ensures Placed(from, temps, job.Total()) && AllOnGrid(temps, job.Total(), job.c)
  {
    GoodStartsAreDistinct(job, from, d.files);
    forall i | 0 <= i < |temps|
      ensures from <= temps[i].start < temps[i].end < job.Total()
      ensures OnGrid(temps[i].start, temps[i].end, job.Total(), job.c)
    {
      var name := KeptFile(job, from, d, temps, i);
    }
    forall i, j | 0 <= i < j < |temps| ensures temps[i].end < temps[j].start {
      assert temps[i].start < temps[j].start;
      GridApart(temps[i].start, temps[j].start, job.c);
    }
  }

  /** On a good disk the plan tiles what is missing, chunk by chunk on the grid. */
  lemma GoodPlanTiles(job: Job, d: Disk, temps: seq<Range>, cfg: Config)
    requires job.Valid() && GoodDisk(job, d) && IsPlanOf(job, d, temps, cfg)
    ensures cfg.Valid() && Tiles(cfg.plan, |d.output|, job.Total()) && AllOnGrid(cfg.plan, job.Total(), job.c)
    ensures Ordered(cfg.plan) && forall i :: 0 <= i < |cfg.plan| ==> cfg.plan[i].start < cfg.plan[i].end
  {
    KeptArePlaced(job, |d.output|, d, temps);
    PlanOnGrid(|d.output|, temps, job.Total(), job.c, job.Name());
    PlanShape(|d.output|, temps, job.Total(), job.c, job.Name());
    forall i | 0 <= i < |cfg.plan| ensures 0 <= cfg.plan[i].start < cfg.plan[i].end < job.Total() {
      assert GoodRange(cfg.plan[i], |d.output|, temps, job.Total(), job.c, job.Name());
    }
  }

  lemma {:induction false} GridCut(p: seq<Range>, start: int, total: int, c: int, n: int) returns (k: nat)
    requires c >= 2 && Tiles(p, start, total) && AllOnGrid(p, total, c)
    requires GridPoint(n, total, c) && start <= n
    ensures k <= |p| && Tiles(p[k..], n, total)
    decreases |p|
  {
    if start == n {
      k := 0;
      assert p[0..] == p;
    } else {
      assert p != [] && OnGrid(p[0].start, p[0].end, total, c);
      if IsMultiple(n, c) { GridApart(start, n, c); }
      assert forall i :: 0 <= i < |p[1..]| ==> p[1..][i] == p[i + 1];
      var j := GridCut(p[1..], p[0].end + 1, total, c, n);
      k := j + 1;
      assert p[k..] == p[1..][j..];
    }
  }

  /** The plan on a good disk is the plan of a fresh download without its first k ranges, those merged. */
  lemma PlanIsFreshSuffix(job: Job, d: Disk, temps: seq<Range>, cfg: Config) returns (k: nat)
    requires job.Valid() && GoodDisk(job, d) && IsPlanOf(job, d, temps, cfg)
    ensures var whole := PlanFrom(0, [], job.Total(), job.c, job.Name());
            && k <= |whole| && SameRanges(cfg.plan, whole[k..])
            && (if k < |whole| then whole[k].start else job.Total()) == |d.output|
  {
    var whole := PlanFrom(0, [], job.Total(), job.c, job.Name());
    assert IsMultiple(0, job.c);
    PlanOnGrid(0, [], job.Total(), job.c, job.Name());
    GoodPlanTiles(job, d, temps, cfg);
    k := GridCut(whole, 0, job.Total(), job.c, |d.output|);
    assert forall i :: 0 <= i < |whole[k..]| ==> whole[k..][i] == whole[k + i];
    GridTilingUnique(cfg.plan, whole[k..], |d.output|, job.Total(), job.c);
  }

  lemma SameStartSameRange(plan: seq<Range>, i: nat, t: Range)
    requires Ordered(plan) && i < |plan| && t in plan && t.start == plan[i].start
    requires forall k :: 0 <= k < |plan| ==> plan[k].start <= plan[k].end
    ensures plan[i] == t
  {
    var k :| 0 <= k < |plan| && plan[k] == t;
    assert k <= i && i <= k;
  }

  lemma FoundIsKept(job: Job, d: Disk, temps: seq<Range>, cfg: Config, i: nat)
    requires job.Valid() && GoodDisk(job, d) && IsPlanOf(job, d, temps, cfg) && i < |cfg.plan|
    requires job.naming.entry(cfg.plan[i].start, cfg.plan[i].end) in Cleaned(job.naming, d.files)
    ensures cfg.plan[i] in temps
  {
    var r := cfg.plan[i];
    var entry := job.naming.entry(r.start, r.end);
    KeptArePlaced(job, |d.output|, d, temps);
    PlanShape(|d.output|, temps, job.Total(), job.c, job.Name());
    GoodPlanTiles(job, d, temps, cfg);
    assert OnGrid(r.start, r.end, job.Total(), job.c);
    assert job.naming.parse(entry) == (r.start, r.end);
    GoodStartsAreDistinct(job, |d.output|, d.files);
    EveryUsableFileIsListed(temps, d.files, job.naming, entry);
    SameStartSameRange(cfg.plan, i, TempRange(job.naming, entry));
  }

  /** A range of the plan is marked completed exactly when its chunk file is there at full length;
      it is written, or was found, under the name of its range. */
  lemma PlanFlags(job: Job, d: Disk, temps: seq<Range>, cfg: Config, i: nat)
    requires job.Valid() && GoodDisk(job, d) && IsPlanOf(job, d, temps, cfg) && i < |cfg.plan|
    ensures var r := cfg.plan[i];
            && r.fileName == job.naming.Path(r.start, r.end)
            && (r.completed <==> job.naming.entry(r.start, r.end) in Cleaned(job.naming, d.files))
            && (r.completed <==> var entry := job.naming.entry(r.start, r.end);
                                 entry in d.files && |d.files[entry]| == r.Size())
  {
    var r := cfg.plan[i];
    StartsBehind(job, d, temps, cfg, i);
    assert job.naming.parse(job.naming.entry(r.start, r.end)) == (r.start, r.end);
    if job.naming.entry(r.start, r.end) in Cleaned(job.naming, d.files) {
      FoundIsKept(job, d, temps, cfg, i);
    }
    if r in temps {
      var k :| 0 <= k < |temps| && temps[k] == r;
      var name := KeptFile(job, |d.output|, d, temps, k);
    } else {
      KeptArePlaced(job, |d.output|, d, temps);
      PlanShape(|d.output|, temps, job.Total(), job.c, job.Name());
      assert GoodRange(r, |d.output|, temps, job.Total(), job.c, job.Name());
    }
  }

  // ---------- what a run leaves ----------

  /** The disk as a run in state s leaves it. Before the directory is scanned the files that were
      there may still be there, and after it the unusable ones that could not be deleted. */
  ghost predicate Leaves(job: Job, d: Disk, cfg: Config, s: State, d': Disk)
    requires |s.tasks| == cfg.N()
  {
    && d'.output == s.m.output
    && (forall name :: name in d'.files ==>
          || ChunkOnDisk(job, cfg, s, name, d'.files[name])
          || (&& name in d.files && d'.files[name] == d.files[name]
              && (s.feed.planned ==> !Usable(job.naming, name, d.files[name]))))
    && (forall j :: 0 <= j < cfg.N() && s.tasks[j].file.Some? ==>
          var name := job.naming.entry(cfg.plan[j].start, cfg.plan[j].end);
          name in d'.files && d'.files[name] == s.tasks[j].file.value)
  }

  ghost predicate ChunkOnDisk(job: Job, cfg: Config, s: State, name: string, content: Bytes)
    requires |s.tasks| == cfg.N()
  {
    exists j :: 0 <= j < cfg.N() && s.tasks[j].file == Some(content)
                && name == job.naming.entry(cfg.plan[j].start, cfg.plan[j].end)
  }

  /** No chunk that is merged, in whole or in part, is still on disk as a chunk file: not inside the window
      between the first byte of a copy and the removal of the chunk file, and every removal so far worked. */
  predicate OutsideWindow(s: State) {
    s.m.copied == 0 && s.m.merged == s.m.removed && NoneOnDisk(s, s.m.removed)
  }

  /** As long as every deletion works, the window is open just from the first byte of a copy to the deletion. */
  lemma OutsideWindowIff(cfg: Config, events: seq<Event>, s: State)
    requires cfg.Valid() && RunFrom(cfg, Init(cfg), events) == Some(s) && RemovalsWork(events)
    ensures OutsideWindow(s) <==> s.m.copied == 0 && s.m.at != Removing
  {
    MergedFilesAreGone(cfg, events, s);
  }

  /** What was written of a chunk is the beginning of it, so a file of full length is all of it. */
  lemma FullChunk(cfg: Config, s: State, j: nat, content: Bytes)
    requires cfg.Valid() && Inv(cfg, s) && j < cfg.N() && s.tasks[j].file == Some(content)
    requires |content| == |cfg.Chunk(j)|
    ensures content == cfg.Chunk(j)
  {
    assert TaskOk(cfg, s, j);
    assert content <= cfg.Chunk(j);
  }

  lemma GoodChunkFile(job: Job, d: Disk, temps: seq<Range>, cfg: Config, s: State, j: nat, name: string, content: Bytes)
    requires job.Valid() && GoodDisk(job, d) && IsPlanOf(job, d, temps, cfg)
    requires cfg.Valid() && Inv(cfg, s) && j < cfg.N() && s.tasks[j].file == Some(content)
    requires name == job.naming.entry(cfg.plan[j].start, cfg.plan[j].end) && Usable(job.naming, name, content)
    ensures GoodFile(job, cfg.plan[j].start, name, content)
  {
    GoodPlanTiles(job, d, temps, cfg);
    var r := cfg.plan[j];
    assert OnGrid(r.start, r.end, job.Total(), job.c);
    assert job.naming.parse(name) == (r.start, r.end);
    FullChunk(cfg, s, j, content);
  }

  lemma OrderedStarts(cfg: Config, k: nat, j: nat)
    requires cfg.Valid() && Ordered(cfg.plan) && k <= j < cfg.N()
    ensures TileStart(cfg, k) <= cfg.plan[j].start
  {
    if k < j { assert cfg.plan[k].end < cfg.plan[j].start; }
  }

  /** A chunk file of usable length holds its chunk, which is none of those that are off the disk. */
  lemma ChunkLeftIsGood(job: Job, d: Disk, temps: seq<Range>, cfg: Config, s: State, k: nat, name: string,
                       content: Bytes)
    requires job.Valid() && GoodDisk(job, d) && IsPlanOf(job, d, temps, cfg)
    requires cfg.Valid() && Inv(cfg, s) && Ordered(cfg.plan) && k <= cfg.N() && NoneOnDisk(s, k)
    requires ChunkOnDisk(job, cfg, s, name, content) && Usable(job.naming, name, content)
    ensures GoodFile(job, TileStart(cfg, k), name, content)
  {
    var j :| 0 <= j < cfg.N() && s.tasks[j].file == Some(content)
             && name == job.naming.entry(cfg.plan[j].start, cfg.plan[j].end);
    GoodChunkFile(job, d, temps, cfg, s, j, name, content);
    OrderedStarts(cfg, k, j);
  }

  lemma TileStartOnGrid(job: Job, d: Disk, temps: seq<Range>, cfg: Config, k: nat)
    requires job.Valid() && GoodDisk(job, d) && IsPlanOf(job, d, temps, cfg) && k <= cfg.N()
    ensures cfg.Valid() && GridPoint(TileStart(cfg, k), job.Total(), job.c)
    ensures cfg.Assembled(k) == job.remote[..TileStart(cfg, k)]
  {
    GoodPlanTiles(job, d, temps, cfg);
    AssembledTiles(cfg, |d.output|, k);
    if k < cfg.N() { assert OnGrid(cfg.plan[k].start, cfg.plan[k].end, job.Total(), job.c); }
  }

  lemma LeftFilesAreGood(job: Job, d: Disk, temps: seq<Range>, cfg: Config, s: State, k: nat, d': Disk)
    requires job.Valid() && GoodDisk(job, d) && IsPlanOf(job, d, temps, cfg)
    requires cfg.Valid() && Inv(cfg, s) && Ordered(cfg.plan) && Leaves(job, d, cfg, s, d')
    requires k <= cfg.N() && NoneOnDisk(s, k) && (s.feed.planned || TileStart(cfg, k) == |d.output|)
    ensures GoodFiles(job, TileStart(cfg, k), d'.files)
  {
    forall name | name in d'.files && Usable(job.naming, name, d'.files[name])
      ensures GoodFile(job, TileStart(cfg, k), name, d'.files[name])
    {
      if ChunkOnDisk(job, cfg, s, name, d'.files[name]) {
        ChunkLeftIsGood(job, d, temps, cfg, s, k, name, d'.files[name]);
      } else {
        assert GoodFile(job, |d.output|, name, d.files[name]);
      }
    }
  }

  /** A run stopped anywhere outside the window, for whatever reason, leaves a good disk. */
  lemma RunLeavesGoodDisk(job: Job, d: Disk, temps: seq<Range>, cfg: Config, s: State, d': Disk)
    requires job.Valid() && GoodDisk(job, d) && IsPlanOf(job, d, temps, cfg)
    requires cfg.Valid() && Reachable(cfg, s) && |s.tasks| == cfg.N()
    requires OutsideWindow(s) && Leaves(job, d, cfg, s, d')
    ensures GoodDisk(job, d')
  {
    ReachableInv(cfg, s);
    GoodPlanTiles(job, d, temps, cfg);
    OutputLeft(job, d, temps, cfg, s);
    LeftFilesAreGood(job, d, temps, cfg, s, s.m.merged, d');
  }

  lemma OutputLeft(job: Job, d: Disk, temps: seq<Range>, cfg: Config, s: State)
    requires job.Valid() && GoodDisk(job, d) && IsPlanOf(job, d, temps, cfg)
    requires cfg.Valid() && Inv(cfg, s) && s.m.copied == 0
    ensures s.m.merged <= cfg.N()
    ensures var n := TileStart(cfg, s.m.merged);
            && GridPoint(n, job.Total(), job.c) && s.m.output == job.remote[..n]
            && (s.feed.planned || n == |d.output|)
  {
    TileStartOnGrid(job, d, temps, cfg, s.m.merged);
    TileStartOnGrid(job, d, temps, cfg, 0);
    assert s.m.merged > 0 ==> s.feed.planned;
  }

  // ---------- the window ----------

  /** In the window some chunk is on disk in full that begins before the end of the output. */
  lemma WindowState(cfg: Config, s: State) returns (k: nat)
    requires cfg.Valid() && Reachable(cfg, s) && !OutsideWindow(s)
    ensures k < cfg.N() == |s.tasks| && s.feed.planned
    ensures s.tasks[k].file == Some(cfg.Chunk(k)) && NoneOnDisk(s, k)
    ensures |s.m.output| > |cfg.Assembled(k)|
  {
    ReachableInv(cfg, s);
    if NoneOnDisk(s, s.m.removed) {
      k := s.m.removed;
    } else {
      k := FirstOnDisk(s, s.m.removed);
      AssembledLength(cfg, k);
      AssembledLength(cfg, s.m.merged);
      SizesGrow(cfg, k, s.m.merged);
    }
    assert TaskOk(cfg, s, k);
  }

  lemma FirstOnDisk(s: State, n: nat) returns (k: nat)
    requires n <= |s.tasks| && !NoneOnDisk(s, n)
    ensures k < n && s.tasks[k].file.Some? && NoneOnDisk(s, k)
  {
    k := 0;
    while s.tasks[k].file.None?
      invariant 0 <= k < n && NoneOnDisk(s, k)
      decreases n - k
    {
      k := k + 1;
    }
  }

  lemma {:induction false} SizesGrow(cfg: Config, k: nat, n: nat)
    requires cfg.Valid() && k < n <= cfg.N()
    ensures SizesTo(cfg, k) < SizesTo(cfg, n)
    decreases n
  {
    if k < n - 1 { SizesGrow(cfg, k, n - 1); }
  }

  lemma {:induction false} AssembledLength(cfg: Config, k: nat)
    requires cfg.Valid() && k <= cfg.N()
    ensures |cfg.Assembled(k)| == |cfg.base| + SizesTo(cfg, k)
  {
    if k > 0 { AssembledLength(cfg, k - 1); }
  }

  /** The plan then covers the file from the start of that chunk file on, not from the output. */
  lemma OverlapTiles(job: Job, from: nat, d: Disk, temps: seq<Range>, cfg: Config)
    requires job.Valid() && GridPoint(from, job.Total(), job.c) && GoodFiles(job, from, d.files)
    requires IsPlanOf(job, d, temps, cfg) && temps != [] && temps[0].start == from < |d.output|
    ensures Tiles(cfg.plan, from, job.Total()) && AllOnGrid(cfg.plan, job.Total(), job.c)
  {
    KeptArePlaced(job, from, d, temps);
    OverlapPlan(from, |d.output|, temps, job.Total(), job.c, job.Name());
  }

  lemma OverlapPlan(from: nat, start: int, temps: seq<Range>, total: int, c: int, name: Namer)
    requires c >= 2 && NoSingleByte(total, c) && Placed(from, temps, total) && AllOnGrid(temps, total, c)
    requires temps != [] && temps[0].start == from < start
    ensures Tiles(PlanFrom(start, temps, total, c, name), from, total)
    ensures AllOnGrid(PlanFrom(start, temps, total, c, name), total, c)
  {
    TailOnGrid(from, temps, total, c, name);
    var tail := PlanFrom(temps[0].end + 1, temps[1..], total, c, name);
    FirstThenTail(temps[0], tail, total, c);
    assert PlanFrom(start, temps, total, c, name) == [temps[0]] + tail;
  }

  lemma TailOnGrid(from: nat, temps: seq<Range>, total: int, c: int, name: Namer)
    requires c >= 2 && NoSingleByte(total, c) && temps != []
    requires Placed(from, temps, total) && AllOnGrid(temps, total, c)
    ensures var tail := PlanFrom(temps[0].end + 1, temps[1..], total, c, name);
            Tiles(tail, temps[0].end + 1, total) && AllOnGrid(tail, total, c)
  {
    PlacedTail(from, temps, total);
    AfterOnGrid(temps[0].start, temps[0].end, total, c);
    assert forall i :: 0 <= i < |temps[1..]| ==> temps[1..][i] == temps[i + 1];
    PlanOnGrid(temps[0].end + 1, temps[1..], total, c, name);
  }

  lemma FirstThenTail(first: Range, tail: seq<Range>, total: int, c: int)
    requires c >= 2 && OnGrid(first.start, first.end, total, c)
    requires Tiles(tail, first.end + 1, total) && AllOnGrid(tail, total, c)
    ensures Tiles([first] + tail, first.start, total) && AllOnGrid([first] + tail, total, c)
  {
    assert ([first] + tail)[1..] == tail;
  }

  /** A usable chunk file that begins before the end of the output makes the plan run over. */
  lemma OverlapRunsOver(job: Job, from: nat, d: Disk, temps: seq<Range>, cfg: Config)
    requires job.Valid() && GridPoint(from, job.Total(), job.c) && GoodFiles(job, from, d.files)
    requires IsPlanOf(job, d, temps, cfg) && temps != [] && temps[0].start == from < |d.output|
    ensures cfg.Valid() && |cfg.Assembled(cfg.N())| == |d.output| + job.Total() - from
  {
    OverlapTiles(job, from, d, temps, cfg);
    assert forall i :: 0 <= i < |cfg.plan| ==> OnGrid(cfg.plan[i].start, cfg.plan[i].end, job.Total(), job.c);
    SizesOfTiles(cfg, from, cfg.N());
    AssembledLength(cfg, cfg.N());
  }

  /** What the next run finds when this one was stopped in the window. */
  lemma WindowDisk(job: Job, d: Disk, temps: seq<Range>, cfg: Config, s: State, d': Disk,
                   temps': seq<Range>, cfg': Config)
    requires job.Valid() && GoodDisk(job, d) && IsPlanOf(job, d, temps, cfg)
    requires cfg.Valid() && Reachable(cfg, s) && |s.tasks| == cfg.N() && !OutsideWindow(s)
    requires Leaves(job, d, cfg, s, d') && IsPlanOf(job, d', temps', cfg')
    ensures cfg'.Valid() && |cfg'.Assembled(cfg'.N())| > job.Total()
  {
    var k := WindowState(cfg, s);
    TileStartOnGrid(job, d, temps, cfg, k);
    ReachableInv(cfg, s);
    GoodPlanTiles(job, d, temps, cfg);
    LeftFilesAreGood(job, d, temps, cfg, s, k, d');
    var name := WindowChunk(job, d, temps, cfg, s, k, d');
    FirstKept(job, TileStart(cfg, k), d', temps', name);
    OverlapRunsOver(job, TileStart(cfg, k), d', temps', cfg');
  }

  lemma WindowChunk(job: Job, d: Disk, temps: seq<Range>, cfg: Config, s: State, k: nat, d': Disk)
    returns (name: string)
    requires job.Valid() && GoodDisk(job, d) && IsPlanOf(job, d, temps, cfg)
    requires cfg.Valid() && |s.tasks| == cfg.N() && Leaves(job, d, cfg, s, d')
    requires k < cfg.N() && s.tasks[k].file == Some(cfg.Chunk(k))
    ensures name in Cleaned(job.naming, d'.files) && job.naming.parse(name).0 == TileStart(cfg, k)
  {
    GoodPlanTiles(job, d, temps, cfg);
    var r := cfg.plan[k];
    name := job.naming.entry(r.start, r.end);
    assert OnGrid(r.start, r.end, job.Total(), job.c);
    assert job.naming.parse(name) == (r.start, r.end);
  }

  lemma FirstKept(job: Job, from: int, d: Disk, temps: seq<Range>, name: string)
    requires job.Valid() && GoodFiles(job, from, d.files) && ListsByStart(temps, d.files, job.naming)
    requires name in Cleaned(job.naming, d.files) && job.naming.parse(name).0 == from
    ensures temps != [] && temps[0].start == from
  {
    assert StartListed(temps, from);
    KeptArePlaced(job, from, d, temps);
  }

  /** Exactly when a stopped run can be resumed: the next plan assembles the remote file if and
      only if the run was not stopped between the first byte of a copy and the removal of the
      chunk file, and no removal had failed. */
  lemma ResumableIff(job: Job, d: Disk, temps: seq<Range>, cfg: Config, s: State, d': Disk,
                     temps': seq<Range>, cfg': Config)
    requires job.Valid() && GoodDisk(job, d) && IsPlanOf(job, d, temps, cfg)
    requires cfg.Valid() && Reachable(cfg, s) && |s.tasks| == cfg.N()
    requires Leaves(job, d, cfg, s, d') && IsPlanOf(job, d', temps', cfg')
    ensures cfg'.Valid()
    ensures cfg'.Assembled(cfg'.N()) == job.remote <==> OutsideWindow(s)
  {
    if OutsideWindow(s) {
      RunLeavesGoodDisk(job, d, temps, cfg, s, d');
      GoodPlanTiles(job, d', temps', cfg');
      TileStartOnGrid(job, d', temps', cfg', cfg'.N());
    } else {
      WindowDisk(job, d, temps, cfg, s, d', temps', cfg');
    }
  }

  lemma {:induction false} TilesFrom(plan: seq<Range>, start: int, total: int, k: nat)
    requires Tiles(plan, start, total) && k <= |plan|
    ensures Tiles(plan[k..], if k < |plan| then plan[k].start else total, total)
  {
    if k > 0 {
      TilesFrom(plan[1..], plan[0].end + 1, total, k - 1);
      assert plan[1..][k - 1..] == plan[k..];
      assert k < |plan| ==> plan[1..][k - 1] == plan[k];
    } else {
      assert plan[0..] == plan;
    }
  }

  lemma RestOnGrid(job: Job, d: Disk, temps: seq<Range>, cfg: Config, k: nat)
    requires job.Valid() && GoodDisk(job, d) && IsPlanOf(job, d, temps, cfg) && k <= cfg.N()
    ensures Tiles(cfg.plan[k..], TileStart(cfg, k), job.Total()) && AllOnGrid(cfg.plan[k..], job.Total(), job.c)
  {
    GoodPlanTiles(job, d, temps, cfg);
    TilesFrom(cfg.plan, |d.output|, job.Total(), k);
    assert forall i :: 0 <= i < |cfg.plan[k..]| ==> cfg.plan[k..][i] == cfg.plan[k + i];
  }

  lemma LeftAtTileStart(job: Job, d: Disk, temps: seq<Range>, cfg: Config, s: State)
    requires job.Valid() && GoodDisk(job, d) && IsPlanOf(job, d, temps, cfg)
    requires cfg.Valid() && Reachable(cfg, s) && s.m.copied == 0
    ensures s.m.merged <= cfg.N() && |s.m.output| == TileStart(cfg, s.m.merged)
  {
    ReachableInv(cfg, s);
    OutputLeft(job, d, temps, cfg, s);
  }

  /** The next run has before it exactly the chunks that this one had not merged. */
  lemma NextPlanIsTheRest(job: Job, d: Disk, temps: seq<Range>, cfg: Config, s: State, d': Disk,
                          temps': seq<Range>, cfg': Config)
    requires job.Valid() && GoodDisk(job, d) && IsPlanOf(job, d, temps, cfg)
    requires cfg.Valid() && Reachable(cfg, s) && |s.tasks| == cfg.N() && OutsideWindow(s)
    requires Leaves(job, d, cfg, s, d') && IsPlanOf(job, d', temps', cfg')
    ensures s.m.merged <= cfg.N() && SameRanges(cfg'.plan, cfg.plan[s.m.merged..])
  {
    LeftAtTileStart(job, d, temps, cfg, s);
    RunLeavesGoodDisk(job, d, temps, cfg, s, d');
    RestOnGrid(job, d, temps, cfg, s.m.merged);
    RestOnGrid(job, d', temps', cfg', 0);
    TileStartOnGrid(job, d', temps', cfg', 0);
    assert cfg'.plan[0..] == cfg'.plan;
    GridTilingUnique(cfg'.plan, cfg.plan[s.m.merged..], |d'.output|, job.Total(), job.c);
  }

  /** Every download from scratch can be stopped, with every deletion working, when just its first k chunks are
      merged; the next run then plans just the others. */
  lemma StopsAfterAny(job: Job, k: nat)
    returns (cfg: Config, events: seq<Event>, s: State, d': Disk, temps': seq<Range>, cfg': Config)
    requires job.Valid() && job.Total() > 0 && job.concurrency > 0 && job.maxThread > 0
    requires k <= |PlanFrom(0, [], job.Total(), job.c, job.Name())|
    ensures cfg.Valid() && IsPlanOf(job, Disk([], map[]), [], cfg)
    ensures RunFrom(cfg, Init(cfg), events) == Some(s) && RemovalsWork(events) && |s.tasks| == cfg.N()
    ensures s.m.merged == k && OutsideWindow(s) && Leaves(job, Disk([], map[]), cfg, s, d')
    ensures IsPlanOf(job, d', temps', cfg') && cfg'.Valid()
    ensures k <= cfg.N() && SameRanges(cfg'.plan, cfg.plan[k..]) && cfg'.N() == cfg.N() - k
    ensures forall i :: 0 <= i < cfg'.N() ==> !cfg'.plan[i].completed
  {
    var d := Disk([], map[]);
    cfg := Config(PlanFrom(0, [], job.Total(), job.c, job.Name()), job.remote, [],
                  job.concurrency, job.maxThread, job.maxRetry);
    EmptyDiskIsGood(job);
    GoodPlanTiles(job, d, [], cfg);
    NothingCompleted(job, cfg);
    events, s := ReachMerged(cfg, k, true);
    d', temps' := Disk(s.m.output, map[]), [];
    NoFilesLeft(job, d, cfg, s, d');
    cfg' := Config(PlanFrom(|d'.output|, [], job.Total(), job.c, job.Name()), job.remote, d'.output,
                   job.concurrency, job.maxThread, job.maxRetry);
    NextPlanIsTheRest(job, d, [], cfg, s, d', temps', cfg');
    RunLeavesGoodDisk(job, d, [], cfg, s, d');
    GoodPlanTiles(job, d', [], cfg');
    forall i | 0 <= i < cfg'.N() ensures !cfg'.plan[i].completed {
      PlanFlags(job, d', [], cfg', i);
    }
  }

  lemma NoFilesLeft(job: Job, d: Disk, cfg: Config, s: State, d': Disk)
    requires cfg.Valid() && |s.tasks| == cfg.N() && d'.output == s.m.output && d'.files == map[]
    requires forall j :: 0 <= j < cfg.N() ==> s.tasks[j].file.None?
    ensures Leaves(job, d, cfg, s, d')
  {
  }

  /** The window is no mere possibility: every download from scratch can be stopped with one byte of its
      first chunk copied, and what the next run then assembles is longer than the remote file. */
  lemma WindowHappens(job: Job) returns (cfg: Config, s: State, d': Disk, temps': seq<Range>, cfg': Config)
    requires job.Valid() && job.Total() > 0 && job.concurrency > 0 && job.maxThread > 0
    ensures cfg.Valid() && Reachable(cfg, s) && |s.tasks| == cfg.N() && !OutsideWindow(s)
    ensures IsPlanOf(job, Disk([], map[]), [], cfg) && Leaves(job, Disk([], map[]), cfg, s, d')
    ensures IsPlanOf(job, d', temps', cfg') && cfg'.Valid() && |cfg'.Assembled(cfg'.N())| > job.Total()
  {
    var d := Disk([], map[]);
    cfg := Config(PlanFrom(0, [], job.Total(), job.c, job.Name()), job.remote, [],
                  job.concurrency, job.maxThread, job.maxRetry);
    EmptyDiskIsGood(job);
    GoodPlanTiles(job, d, [], cfg);
    NothingCompleted(job, cfg);
    s := ReachMidCopy(cfg);
    var r := cfg.plan[0];
    var name := job.naming.entry(r.start, r.end);
    d' := Disk(s.m.output, map[name := cfg.Chunk(0)]);
    assert job.naming.parse(name) == (r.start, r.end);
    temps' := [TempRange(job.naming, name)];
    OneFileListed(job.naming, name, cfg.Chunk(0));
    cfg' := Config(PlanFrom(|d'.output|, temps', job.Total(), job.c, job.Name()), job.remote, d'.output,
                   job.concurrency, job.maxThread, job.maxRetry);
    WindowDisk(job, d, [], cfg, s, d', temps', cfg');
  }

  lemma NothingCompleted(job: Job, cfg: Config)
    requires job.Valid() && job.Total() > 0 && IsPlanOf(job, Disk([], map[]), [], cfg) && cfg.Valid()
    ensures cfg.N() > 0 && forall j :: 0 <= j < cfg.N() ==> !cfg.plan[j].completed
  {
    EmptyDiskIsGood(job);
    GoodPlanTiles(job, Disk([], map[]), [], cfg);
    PlanShape(0, [], job.Total(), job.c, job.Name());
    forall j | 0 <= j < cfg.N() ensures !cfg.plan[j].completed {
      assert GoodRange(cfg.plan[j], 0, [], job.Total(), job.c, job.Name());
    }
  }

  lemma OneFileListed(naming: Naming, name: string, content: Bytes)
    requires Usable(naming, name, content)
    ensures ListsByStart([TempRange(naming, name)], map[name := content], naming)
  {
    var files := map[name := content];
    var temps := [TempRange(naming, name)];
    assert name in Cleaned(naming, files);
    assert IsTemp(naming, files, temps[0]);
    assert temps[0].start == naming.parse(name).0;
  }

  // ---------- BaseDownloadFile, again and again ----------

  /** Whether BaseDownloadFile takes the output for finished without looking further. */
  predicate Skips(job: Job, d: Disk, overCover: bool) {
    |d.output| == job.Total() && !overCover
  }

  /** The disk the chunk downloader starts on: an output of full length is removed first, and a failure to
      remove it ignored. */
  function StartDisk(job: Job, d: Disk, removeFails: bool): Disk {
    if |d.output| == job.Total() && !removeFails then d.(output := []) else d
  }

  /** One call of BaseDownloadFile that takes disk d to disk d'; ok: it reported success. It may
      skip the download, fail before it starts, or run and be stopped in any reachable state
      outside the window; shutdown: the program was shut down meanwhile. */
  ghost predicate Call(job: Job, d: Disk, overCover: bool, removeFails: bool, d': Disk, ok: bool, shutdown: bool)
    requires job.Valid()
  {
    if Skips(job, d, overCover) then d' == d && ok
    else
      || (d' == StartDisk(job, d, removeFails) && !ok)
      || exists temps, cfg, s ::
           && RunsTo(job, StartDisk(job, d, removeFails), temps, cfg, s, d')
           && ok == (s.o.ret == Nil) && shutdown == s.o.shutdown
  }

  ghost predicate RunsTo(job: Job, d: Disk, temps: seq<Range>, cfg: Config, s: State, d': Disk)
    requires job.Valid()
  {
    && IsPlanOf(job, d, temps, cfg) && cfg.Valid() && Reachable(cfg, s) && |s.tasks| == cfg.N()
    && OutsideWindow(s) && Leaves(job, d, cfg, s, d')
  }

  /** A run may be stopped before it did anything, and then leaves the disk as it was. */
  lemma StoppedAtOnce(job: Job, d: Disk, temps: seq<Range>, cfg: Config)
    requires job.Valid() && GoodDisk(job, d) && IsPlanOf(job, d, temps, cfg)
    ensures cfg.Valid() && RunsTo(job, d, temps, cfg, Init(cfg), d)
  {
    GoodPlanTiles(job, d, temps, cfg);
    InitReachable(cfg);
    forall j | 0 <= j < cfg.N() && Init(cfg).tasks[j].file.Some?
      ensures var name := job.naming.entry(cfg.plan[j].start, cfg.plan[j].end);
              name in d.files && d.files[name] == Init(cfg).tasks[j].file.value
    {
      KeptOnDisk(job, d, temps, cfg, j);
    }
    LeavesAll(job, d, cfg);
  }

  lemma KeptOnDisk(job: Job, d: Disk, temps: seq<Range>, cfg: Config, j: nat)
    requires job.Valid() && GoodDisk(job, d) && IsPlanOf(job, d, temps, cfg) && cfg.Valid()
    requires j < cfg.N() && cfg.plan[j].completed
    ensures var name := job.naming.entry(cfg.plan[j].start, cfg.plan[j].end);
            name in d.files && d.files[name] == cfg.Chunk(j)
  {
    PlanFlags(job, d, temps, cfg, j);
    StartsBehind(job, d, temps, cfg, j);
    GoodContent(job, |d.output|, d.files, cfg.plan[j].start, cfg.plan[j].end);
  }

  lemma GoodContent(job: Job, from: int, files: map<string, Bytes>, s: int, e: int)
    requires job.Valid() && GoodFiles(job, from, files) && OnGrid(s, e, job.Total(), job.c)
    requires job.naming.entry(s, e) in Cleaned(job.naming, files)
    ensures files[job.naming.entry(s, e)] == job.remote[s..e + 1]
  {
    var name := job.naming.entry(s, e);
    assert job.naming.parse(name) == (s, e);
    assert GoodFile(job, from, name, files[name]);
  }

  lemma LeavesAll(job: Job, d: Disk, cfg: Config)
    requires cfg.Valid() && d.output == cfg.base
    requires forall j :: 0 <= j < cfg.N() && Init(cfg).tasks[j].file.Some? ==>
               var name := job.naming.entry(cfg.plan[j].start, cfg.plan[j].end);
               name in d.files && d.files[name] == Init(cfg).tasks[j].file.value
    ensures Leaves(job, d, cfg, Init(cfg), d)
  {
  }

  lemma RunIsGood(job: Job, d: Disk, temps: seq<Range>, cfg: Config, s: State, d': Disk)
    requires job.Valid() && GoodDisk(job, d) && RunsTo(job, d, temps, cfg, s, d')
    ensures GoodDisk(job, d')
    ensures s.o.ret == Nil && !s.o.shutdown ==> d'.output == job.remote
  {
    RunLeavesGoodDisk(job, d, temps, cfg, s, d');
    GoodPlanTiles(job, d, temps, cfg);
    if s.o.ret == Nil && !s.o.shutdown {
      NilMeansComplete(cfg, |d.output|, s);
    }
  }

  lemma CallKeepsGoodDisk(job: Job, d: Disk, overCover: bool, removeFails: bool, d': Disk, ok: bool, shutdown: bool)
    requires job.Valid() && job.Total() > 0 && GoodDisk(job, d)
    requires Call(job, d, overCover, removeFails, d', ok, shutdown)
    ensures GoodDisk(job, d')
    ensures ok && !shutdown ==> d'.output == job.remote
  {
    if !Skips(job, d, overCover) {
      var d0 := StartDisk(job, d, removeFails);
      StartDiskGood(job, d, removeFails);
      if temps, cfg, s :| RunsTo(job, d0, temps, cfg, s, d') && ok == (s.o.ret == Nil) && shutdown == s.o.shutdown {
        RunIsGood(job, d0, temps, cfg, s, d');
      }
    }
  }

  lemma StartDiskGood(job: Job, d: Disk, removeFails: bool)
    requires job.Valid() && GoodDisk(job, d)
    ensures GoodDisk(job, StartDisk(job, d, removeFails))
  {
    assert IsMultiple(0, job.c);
    forall name | name in d.files && Usable(job.naming, name, d.files[name])
      ensures GoodFile(job, 0, name, d.files[name])
    {
      assert GoodFile(job, |d.output|, name, d.files[name]);
    }
  }

  /** The plan of a call is empty exactly when it was to replace a full output and could not remove it. */
  lemma CallPlanEmptyIff(job: Job, d: Disk, removeFails: bool, temps: seq<Range>, cfg: Config)
    requires job.Valid() && job.Total() > 0 && GoodDisk(job, d)
    requires IsPlanOf(job, StartDisk(job, d, removeFails), temps, cfg)
    ensures cfg.N() == 0 <==> |d.output| == job.Total() && removeFails
  {
    StartDiskGood(job, d, removeFails);
    GoodPlanTiles(job, StartDisk(job, d, removeFails), temps, cfg);
  }

  /** Such a call never succeeds without a shutdown, and can wait for ever with nobody disturbing it. */
  lemma FullOutputHangs(job: Job, d: Disk, temps: seq<Range>, cfg: Config) returns (s: State)
    requires job.Valid() && job.Total() > 0 && GoodDisk(job, d) && |d.output| == job.Total()
    requires IsPlanOf(job, StartDisk(job, d, true), temps, cfg)
    ensures cfg.Valid() && Reachable(cfg, s) && Undisturbed(s) && Stuck(cfg, s) && s.m.output == job.remote
    ensures forall t :: Reachable(cfg, t) && !t.o.shutdown ==> t.o.ret != Nil
  {
    GoodPlanTiles(job, StartDisk(job, d, true), temps, cfg);
    CallPlanEmptyIff(job, d, true, temps, cfg);
    s := EmptyPlanSticks(cfg);
    ReachableInv(cfg, s);
    assert s.m.output == cfg.Assembled(0);
    forall t | Reachable(cfg, t) && !t.o.shutdown ensures t.o.ret != Nil {
      EmptyPlanNeverSucceeds(cfg, t);
    }
  }

  // ---------- what a call keeps and what it asks for ----------

  /** A full output is thrown away when it is to be replaced and can be removed. */
  predicate Replaces(job: Job, d: Disk, overCover: bool, removeFails: bool) {
    |d.output| == job.Total() && overCover && !removeFails
  }

  /** A call that does not find a full output that may stay runs on the disk as it found it, but for an output
      that it replaces. */
  lemma CallRunsOn(job: Job, d: Disk, overCover: bool, removeFails: bool, d': Disk, ok: bool, shutdown: bool)
    returns (d0: Disk)
    requires job.Valid() && Call(job, d, overCover, removeFails, d', ok, shutdown)
    requires |d.output| != job.Total() || overCover
    ensures d0 == if Replaces(job, d, overCover, removeFails) then Disk([], d.files) else d
    ensures (d' == d0 && !ok) || exists temps, cfg, s ::
              RunsTo(job, d0, temps, cfg, s, d') && ok == (s.o.ret == Nil) && shutdown == s.o.shutdown
  {
    d0 := StartDisk(job, d, removeFails);
  }

  /** A full output that may stay is left alone, and the call succeeds. */
  lemma FullOutputStays(job: Job, d: Disk, removeFails: bool, d': Disk, ok: bool, shutdown: bool)
    requires job.Valid() && |d.output| == job.Total() && Call(job, d, false, removeFails, d', ok, shutdown)
    ensures d' == d && ok
  {
    assert Skips(job, d, false);
  }

  lemma RunKeepsOutput(cfg: Config, s: State)
    requires cfg.Valid() && Reachable(cfg, s)
    ensures cfg.base <= s.m.output
  {
    OutputInOrder(cfg, s);
    BaseStays(cfg, s.m.merged);
  }

  lemma {:induction false} BaseStays(cfg: Config, k: nat)
    requires cfg.Valid() && k <= cfg.N()
    ensures cfg.base <= cfg.Assembled(k)
  {
    if k > 0 { BaseStays(cfg, k - 1); }
  }

  /** What is in the output stays there, but for a full one that is replaced. */
  lemma CallKeepsOutput(job: Job, d: Disk, overCover: bool, removeFails: bool, d': Disk, ok: bool, shutdown: bool)
    requires job.Valid() && Call(job, d, overCover, removeFails, d', ok, shutdown)
    ensures d.output <= d'.output || Replaces(job, d, overCover, removeFails)
  {
    if !Skips(job, d, overCover) {
      var d0 := CallRunsOn(job, d, overCover, removeFails, d', ok, shutdown);
      if temps, cfg, s :| RunsTo(job, d0, temps, cfg, s, d') {
        RunKeepsOutput(cfg, s);
      }
    }
  }

  /** The run has asked the server for byte b. */
  ghost predicate Asked(cfg: Config, s: State, b: int)
    requires |s.tasks| == cfg.N()
  {
    exists j :: 0 <= j < cfg.N() && s.tasks[j].starts > 0 && cfg.plan[j].start <= b <= cfg.plan[j].end
  }

  /** Byte b is in the output, or in a usable chunk file. */
  ghost predicate IsThere(job: Job, d: Disk, b: int) {
    b < |d.output| || exists name :: HasByte(job.naming, d.files, name, b)
  }

  predicate HasByte(naming: Naming, files: map<string, Bytes>, name: string, b: int) {
    name in Cleaned(naming, files) && naming.parse(name).0 <= b <= naming.parse(name).1
  }

  /** A run asks only for bytes that are not there. */
  lemma AskedIsMissing(job: Job, d: Disk, temps: seq<Range>, cfg: Config, s: State, b: int)
    requires job.Valid() && GoodDisk(job, d) && IsPlanOf(job, d, temps, cfg)
    requires cfg.Valid() && Reachable(cfg, s) && |s.tasks| == cfg.N() && Asked(cfg, s, b)
    ensures |d.output| <= b < job.Total() && !IsThere(job, d, b)
  {
    var j :| 0 <= j < cfg.N() && s.tasks[j].starts > 0 && cfg.plan[j].start <= b <= cfg.plan[j].end;
    AttemptsBounded(cfg, s, j);
    StartsBehind(job, d, temps, cfg, j);
    forall name ensures !HasByte(job.naming, d.files, name, b) {
      if HasByte(job.naming, d.files, name, b) {
        FileOfRange(job, d, temps, cfg, j, name, b);
      }
    }
  }

  lemma StartsBehind(job: Job, d: Disk, temps: seq<Range>, cfg: Config, j: nat)
    requires job.Valid() && GoodDisk(job, d) && IsPlanOf(job, d, temps, cfg) && j < cfg.N()
    ensures |d.output| <= cfg.plan[j].start && cfg.plan[j].end < job.Total()
    ensures OnGrid(cfg.plan[j].start, cfg.plan[j].end, job.Total(), job.c)
  {
    GoodPlanTiles(job, d, temps, cfg);
    TileStartOnGrid(job, d, temps, cfg, 0);
    if j > 0 { assert cfg.plan[0].end < cfg.plan[j].start; }
  }

  lemma OneOnGrid(s: int, e: int, t: int, f: int, total: int, c: int, b: int)
    requires c >= 2 && OnGrid(s, e, total, c) && OnGrid(t, f, total, c) && s <= b <= e && t <= b <= f
    ensures s == t && e == f
  {
    if s < t { GridApart(s, t, c); }
    if t < s { GridApart(t, s, c); }
  }

  /** A usable chunk file with a byte of a range is that of the range. */
  lemma FileOfRange(job: Job, d: Disk, temps: seq<Range>, cfg: Config, j: nat, name: string, b: int)
    requires job.Valid() && GoodDisk(job, d) && IsPlanOf(job, d, temps, cfg) && j < cfg.N()
    requires cfg.plan[j].start <= b <= cfg.plan[j].end && HasByte(job.naming, d.files, name, b)
    ensures cfg.plan[j].completed
  {
    var (s, e) := job.naming.parse(name);
    StartsBehind(job, d, temps, cfg, j);
    assert GoodFile(job, |d.output|, name, d.files[name]);
    OneOnGrid(s, e, cfg.plan[j].start, cfg.plan[j].end, job.Total(), job.c, b);
    PlanFlags(job, d, temps, cfg, j);
  }

  datatype Visit = Visit(overCover: bool, removeFails: bool, after: Disk, ok: bool, shutdown: bool)

  ghost predicate IsHistory(job: Job, d: Disk, visits: seq<Visit>)
    requires job.Valid()
    decreases |visits|
  {
    visits == []
    || (var v := visits[0];
        && Call(job, d, v.overCover, v.removeFails, v.after, v.ok, v.shutdown)
        && IsHistory(job, v.after, visits[1..]))
  }

  /** Resume over many runs: from a good disk (an empty one, say), after any number of calls, each
      stopped anywhere outside the window or not at all, the disk is good, and whenever a call
      reports success without a shutdown the output is the remote file. */
  lemma {:induction false} ManyRuns(job: Job, d: Disk, visits: seq<Visit>, k: nat)
    requires job.Valid() && job.Total() > 0 && GoodDisk(job, d) && IsHistory(job, d, visits) && k < |visits|
    ensures GoodDisk(job, visits[k].after)
    ensures visits[k].ok && !visits[k].shutdown ==> visits[k].after.output == job.remote
    decreases |visits|
  {
    var v := visits[0];
    CallKeepsGoodDisk(job, d, v.overCover, v.removeFails, v.after, v.ok, v.shutdown);
    if k > 0 {
      ManyRuns(job, v.after, visits[1..], k - 1);
      assert visits[1..][k - 1] == visits[k];
    }
  }

  function DiskBefore(d: Disk, visits: seq<Visit>, k: nat): Disk
    requires k <= |visits|
  {
    if k == 0 then d else visits[k - 1].after
  }

  /** Over any number of calls the output only grows, but for full ones that are replaced. */
  lemma {:induction false} OutputGrows(job: Job, d: Disk, visits: seq<Visit>, k: nat)
    requires job.Valid() && IsHistory(job, d, visits) && k < |visits|
    ensures var was := DiskBefore(d, visits, k);
            was.output <= visits[k].after.output || Replaces(job, was, visits[k].overCover, visits[k].removeFails)
    decreases |visits|
  {
    var v := visits[0];
    if k == 0 {
      CallKeepsOutput(job, d, v.overCover, v.removeFails, v.after, v.ok, v.shutdown);
    } else {
      OutputGrows(job, v.after, visits[1..], k - 1);
      assert visits[1..][k - 1] == visits[k] && DiskBefore(v.after, visits[1..], k - 1) == DiskBefore(d, visits, k);
    }
  }

  lemma EmptyDiskIsGood(job: Job)
    requires job.Valid()
    ensures GoodDisk(job, Disk([], map[]))
  {
    assert IsMultiple(0, job.c);
  }
}
