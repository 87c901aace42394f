/** Downloads over many calls, each with a chunk size of its own. Chunk files are then on no common grid, but
    they do not overlap, since a plan only fills the gaps between them. */
module ResumeAnyChunk {
  import opened Basics
  import opened TempNames
  import opened Planner
  import opened Downloader
  import opened Protocol
  import opened ProtocolInvariant
  import opened ProtocolSafety
  import opened Resume

  /** A job without the condition on the length of the file. */
  ghost predicate Sound(job: Job) {
    job.c >= 2 && |job.remote| <= MAX_INT64 && RoundTrips(job.naming)
  }

  /** A usable chunk file with the bytes of its range, not before from, under the name the program gives it. */
  predicate LooseFile(job: Job, from: int, name: string, content: Bytes) {
    var (s, e) := job.naming.parse(name);
    from <= s < e < job.Total() && 0 <= s && name == job.naming.entry(s, e) && content == job.remote[s..e + 1]
  }

  /** The ranges of two names do not overlap. */
  predicate NoOverlap(naming: Naming, n: string, m: string) {
    var (s, e) := naming.parse(n);
    var (t, f) := naming.parse(m);
    e < t || f < s
  }

  ghost predicate LooseFiles(job: Job, from: int, files: map<string, Bytes>) {
    && (forall name {:trigger LooseFile(job, from, name, files[name])} ::
          name in Cleaned(job.naming, files) ==> LooseFile(job, from, name, files[name]))
    && (forall n {:trigger HasItsRoom(job.naming, files, n)} ::
          n in Cleaned(job.naming, files) ==> HasItsRoom(job.naming, files, n))
  }

  ghost predicate HasItsRoom(naming: Naming, files: map<string, Bytes>, n: string) {
    forall m {:trigger NoOverlap(naming, n, m)} :: m in Cleaned(naming, files) && n != m ==> NoOverlap(naming, n, m)
  }

  /** The invariant between calls: the output is a prefix of the remote file, and the usable chunk files are
      right, behind it, and do not overlap. */
  ghost predicate LooseDisk(job: Job, d: Disk) {
    d.output <= job.remote && LooseFiles(job, |d.output|, d.files)
  }

  // ---------- the plan ----------

  lemma LooseStartsAreDistinct(job: Job, from: int, files: map<string, Bytes>)
    requires LooseFiles(job, from, files)
    ensures DistinctStarts(files, job.naming)
  {
    forall n | n in Cleaned(job.naming, files) ensures SoleWithStart(files, job.naming, n) {
      forall m | m in Cleaned(job.naming, files) && job.naming.parse(m).0 == job.naming.parse(n).0 ensures m == n {
        assert LooseFile(job, from, n, files[n]) && LooseFile(job, from, m, files[m]);
        assert HasItsRoom(job.naming, files, n) && (m != n ==> NoOverlap(job.naming, n, m));
      }
    }
  }

  lemma KeptName(job: Job, from: int, d: Disk, temps: seq<Range>, i: nat) returns (name: string)
    requires LooseFiles(job, from, d.files) && ListsByStart(temps, d.files, job.naming) && i < |temps|
    ensures name in Cleaned(job.naming, d.files) && temps[i] == TempRange(job.naming, name)
    ensures LooseFile(job, from, name, d.files[name])
  {
    assert IsTemp(job.naming, d.files, temps[i]);
    name :| name in Cleaned(job.naming, d.files) && temps[i] == TempRange(job.naming, name);
    assert LooseFile(job, from, name, d.files[name]);
  }

  lemma KeptAreLoose(job: Job, from: int, d: Disk, temps: seq<Range>)
    requires LooseFiles(job, from, d.files) && ListsByStart(temps, d.files, job.naming)
    ensures Placed(from, temps, job.Total())
  {
    LooseStartsAreDistinct(job, from, d.files);
    forall i | 0 <= i < |temps| ensures from <= temps[i].start < temps[i].end < job.Total() {
      var name := KeptName(job, from, d, temps, i);
    }
    forall i, j | 0 <= i < j < |temps| ensures temps[i].end < temps[j].start {
      var n := KeptName(job, from, d, temps, i);
      var m := KeptName(job, from, d, temps, j);
      assert temps[i].start < temps[j].start;
      assert HasItsRoom(job.naming, d.files, n) && NoOverlap(job.naming, n, m);
    }
  }

  /** Where no gap loses its last byte, the plan tiles what is missing. */
  lemma LoosePlanTiles(job: Job, d: Disk, temps: seq<Range>, cfg: Config)
    requires Sound(job) && LooseDisk(job, d) && IsPlanOf(job, d, temps, cfg)
    requires NoLoss(|d.output|, temps, job.Total(), job.c)
    ensures cfg.Valid() && Tiles(cfg.plan, |d.output|, job.Total()) && Ordered(cfg.plan)
    ensures forall i :: 0 <= i < |cfg.plan| ==> cfg.plan[i].start < cfg.plan[i].end
    ensures forall t :: t in temps ==> t in cfg.plan
  {
    KeptAreLoose(job, |d.output|, d, temps);
    PlanTilesIff(|d.output|, temps, job.Total(), job.c, job.Name());
    PlanShape(|d.output|, temps, job.Total(), job.c, job.Name());
    forall i | 0 <= i < |cfg.plan| ensures 0 <= cfg.plan[i].start < cfg.plan[i].end < job.Total() {
      assert GoodRange(cfg.plan[i], |d.output|, temps, job.Total(), job.c, job.Name());
    }
  }

  /** With one chunk size for all calls no gap ever loses its last byte (Resume). */
  lemma FixedChunkNeverLoses(job: Job, d: Disk, temps: seq<Range>, cfg: Config)
    requires job.Valid() && GoodDisk(job, d) && IsPlanOf(job, d, temps, cfg)
    ensures NoLoss(|d.output|, temps, job.Total(), job.c)
  {
    KeptArePlaced(job, |d.output|, d, temps);
    GoodPlanTiles(job, d, temps, cfg);
    PlanTilesIff(|d.output|, temps, job.Total(), job.c, job.Name());
  }

  // ---------- what a run leaves ----------

  /** The file is that of chunk l. */
  predicate IsChunkFile(job: Job, cfg: Config, l: nat, name: string, content: Bytes) {
    && l < cfg.N() && 0 <= cfg.plan[l].start < cfg.plan[l].end < |cfg.remote|
    && name == job.naming.entry(cfg.plan[l].start, cfg.plan[l].end)
    && content == cfg.remote[cfg.plan[l].start..cfg.plan[l].end + 1]
  }

  lemma OfTheRun(job: Job, cfg: Config, s: State, k: nat, name: string, content: Bytes) returns (l: nat)
    requires RoundTrips(job.naming) && |cfg.remote| <= MAX_INT64 && cfg.Valid() && Inv(cfg, s)
    requires forall i :: 0 <= i < |cfg.plan| ==> cfg.plan[i].start < cfg.plan[i].end
    requires NoneOnDisk(s, k) && ChunkOnDisk(job, cfg, s, name, content) && Usable(job.naming, name, content)
    ensures l >= k && IsChunkFile(job, cfg, l, name, content)
  {
    l :| 0 <= l < cfg.N() && s.tasks[l].file == Some(content)
         && name == job.naming.entry(cfg.plan[l].start, cfg.plan[l].end);
    assert job.naming.parse(name) == (cfg.plan[l].start, cfg.plan[l].end);
    FullChunk(cfg, s, l, content);
  }

  lemma FromBefore(job: Job, d: Disk, temps: seq<Range>, cfg: Config, name: string) returns (l: nat)
    requires LooseDisk(job, d) && ListsByStart(temps, d.files, job.naming) && cfg.remote == job.remote
    requires (forall t :: t in temps ==> t in cfg.plan) && name in Cleaned(job.naming, d.files)
    ensures IsChunkFile(job, cfg, l, name, d.files[name])
  {
    LooseStartsAreDistinct(job, |d.output|, d.files);
    EveryUsableFileIsListed(temps, d.files, job.naming, name);
    l :| 0 <= l < cfg.N() && cfg.plan[l] == TempRange(job.naming, name);
    assert LooseFile(job, |d.output|, name, d.files[name]);
  }

  lemma FileIsFlagged(job: Job, d: Disk, temps: seq<Range>, cfg: Config, name: string, l: nat)
    requires Sound(job) && LooseDisk(job, d) && IsPlanOf(job, d, temps, cfg)
    requires NoLoss(|d.output|, temps, job.Total(), job.c) && name in Cleaned(job.naming, d.files)
    requires cfg.Valid() && IsChunkFile(job, cfg, l, name, d.files[name])
    ensures cfg.plan[l].completed && job.naming.parse(name) == (cfg.plan[l].start, cfg.plan[l].end)
  {
    LoosePlanTiles(job, d, temps, cfg);
    LooseStartsAreDistinct(job, |d.output|, d.files);
    EveryUsableFileIsListed(temps, d.files, job.naming, name);
    var k :| 0 <= k < cfg.N() && cfg.plan[k] == TempRange(job.naming, name);
    assert job.naming.parse(name) == (cfg.plan[l].start, cfg.plan[l].end);
    assert k == l;
  }

  /** The chunk that a usable file on the disk belongs to. */
  lemma IndexOfLeft(job: Job, d: Disk, temps: seq<Range>, cfg: Config, s: State, k: nat, d': Disk, name: string)
    returns (l: nat)
    requires Sound(job) && LooseDisk(job, d) && IsPlanOf(job, d, temps, cfg)
    requires NoLoss(|d.output|, temps, job.Total(), job.c)
    requires cfg.Valid() && Inv(cfg, s) && Leaves(job, d, cfg, s, d') && NoneOnDisk(s, k)
    requires (s.feed.planned || k == 0) && name in Cleaned(job.naming, d'.files)
    ensures l >= k && IsChunkFile(job, cfg, l, name, d'.files[name])
  {
    LoosePlanTiles(job, d, temps, cfg);
    if ChunkOnDisk(job, cfg, s, name, d'.files[name]) {
      l := OfTheRun(job, cfg, s, k, name, d'.files[name]);
    } else {
      l := FromBefore(job, d, temps, cfg, name);
    }
  }

  lemma ChunkFileIsLoose(job: Job, cfg: Config, k: nat, l: nat, name: string, content: Bytes)
    requires RoundTrips(job.naming) && |job.remote| <= MAX_INT64 && cfg.remote == job.remote
    requires cfg.Valid() && Ordered(cfg.plan) && k <= l && k <= cfg.N() && IsChunkFile(job, cfg, l, name, content)
    ensures job.naming.parse(name) == (cfg.plan[l].start, cfg.plan[l].end)
    ensures LooseFile(job, TileStart(cfg, k), name, content)
  {
    OrderedStarts(cfg, k, l);
  }

  lemma ChunksHaveRoom(job: Job, cfg: Config, i: nat, j: nat, n: string, m: string, a: Bytes, b: Bytes)
    requires RoundTrips(job.naming) && |cfg.remote| <= MAX_INT64 && Ordered(cfg.plan) && n != m
    requires IsChunkFile(job, cfg, i, n, a) && IsChunkFile(job, cfg, j, m, b)
    ensures NoOverlap(job.naming, n, m)
  {
    assert job.naming.parse(n) == (cfg.plan[i].start, cfg.plan[i].end);
    assert job.naming.parse(m) == (cfg.plan[j].start, cfg.plan[j].end);
    assert i != j;
  }

  lemma LeftFilesAreLoose(job: Job, d: Disk, temps: seq<Range>, cfg: Config, s: State, k: nat, d': Disk)
    requires Sound(job) && LooseDisk(job, d) && IsPlanOf(job, d, temps, cfg)
    requires NoLoss(|d.output|, temps, job.Total(), job.c)
    requires cfg.Valid() && Inv(cfg, s) && Leaves(job, d, cfg, s, d') && k <= cfg.N() && NoneOnDisk(s, k)
    requires s.feed.planned || k == 0
    ensures LooseFiles(job, TileStart(cfg, k), d'.files)
  {
    LoosePlanTiles(job, d, temps, cfg);
    forall n | n in Cleaned(job.naming, d'.files)
      ensures LooseFile(job, TileStart(cfg, k), n, d'.files[n]) && HasItsRoom(job.naming, d'.files, n)
    {
      var i := IndexOfLeft(job, d, temps, cfg, s, k, d', n);
      ChunkFileIsLoose(job, cfg, k, i, n, d'.files[n]);
      forall m | m in Cleaned(job.naming, d'.files) && n != m ensures NoOverlap(job.naming, n, m) {
        var j := IndexOfLeft(job, d, temps, cfg, s, k, d', m);
        ChunksHaveRoom(job, cfg, i, j, n, m, d'.files[n], d'.files[m]);
      }
    }
  }

  /** A run of the downloader on a disk where no gap loses its last byte, stopped anywhere outside the window. */
  ghost predicate RunsLoosely(job: Job, d: Disk, temps: seq<Range>, cfg: Config, s: State, d': Disk)
    requires job.c >= 2
  {
    && IsPlanOf(job, d, temps, cfg) && NoLoss(|d.output|, temps, job.Total(), job.c)
    && cfg.Valid() && Reachable(cfg, s) && |s.tasks| == cfg.N() && OutsideWindow(s) && Leaves(job, d, cfg, s, d')
  }

  lemma LooseOutput(job: Job, d: Disk, temps: seq<Range>, cfg: Config, s: State)
    requires Sound(job) && LooseDisk(job, d) && IsPlanOf(job, d, temps, cfg)
    requires NoLoss(|d.output|, temps, job.Total(), job.c)
    requires cfg.Valid() && Inv(cfg, s) && s.m.copied == 0
    ensures s.m.merged <= cfg.N() && 0 <= TileStart(cfg, s.m.merged) <= job.Total()
    ensures s.m.output == job.remote[..TileStart(cfg, s.m.merged)]
    ensures s.feed.planned || s.m.merged == 0
  {
    LoosePlanTiles(job, d, temps, cfg);
    AssembledTiles(cfg, |d.output|, s.m.merged);
  }

  lemma RunKeepsLoose(job: Job, d: Disk, temps: seq<Range>, cfg: Config, s: State, d': Disk)
    requires Sound(job) && LooseDisk(job, d) && RunsLoosely(job, d, temps, cfg, s, d')
    ensures LooseDisk(job, d')
  {
    ReachableInv(cfg, s);
    LooseOutput(job, d, temps, cfg, s);
    var n := TileStart(cfg, s.m.merged);
    LeftFilesAreLoose(job, d, temps, cfg, s, s.m.merged, d');
    assert |d'.output| == n && LooseFiles(job, n, d'.files);
  }

  lemma LooseRunSucceeds(job: Job, d: Disk, temps: seq<Range>, cfg: Config, s: State, d': Disk)
    requires Sound(job) && LooseDisk(job, d) && RunsLoosely(job, d, temps, cfg, s, d')
    requires s.o.ret == Nil && !s.o.shutdown
    ensures d'.output == job.remote
  {
    LoosePlanTiles(job, d, temps, cfg);
    NilMeansComplete(cfg, |d.output|, s);
  }

  lemma RunLeavesLooseDisk(job: Job, d: Disk, temps: seq<Range>, cfg: Config, s: State, d': Disk)
    requires Sound(job) && LooseDisk(job, d) && RunsLoosely(job, d, temps, cfg, s, d')
    ensures LooseDisk(job, d')
    ensures s.o.ret == Nil && !s.o.shutdown ==> d'.output == job.remote
  {
    RunKeepsLoose(job, d, temps, cfg, s, d');
    if s.o.ret == Nil && !s.o.shutdown { LooseRunSucceeds(job, d, temps, cfg, s, d'); }
  }

  // ---------- many calls ----------

  /** One call of BaseDownloadFile with the chunk size of job (Resume.Call). */
  ghost predicate LooseCall(job: Job, d: Disk, v: Visit)
    requires job.c >= 2
  {
    if Skips(job, d, v.overCover) then v.after == d && v.ok
    else
      || (v.after == StartDisk(job, d, v.removeFails) && !v.ok)
      || exists temps, cfg, s ::
           && RunsLoosely(job, StartDisk(job, d, v.removeFails), temps, cfg, s, v.after)
           && v.ok == (s.o.ret == Nil) && v.shutdown == s.o.shutdown
  }

  lemma LooseCallKeepsDisk(job: Job, d: Disk, v: Visit)
    requires Sound(job) && job.Total() > 0 && LooseDisk(job, d) && LooseCall(job, d, v)
    ensures LooseDisk(job, v.after)
    ensures v.ok && !v.shutdown ==> v.after.output == job.remote
  {
    if !Skips(job, d, v.overCover) {
      var d0 := StartDisk(job, d, v.removeFails);
      StartDiskIsLoose(job, d, v.removeFails);
      if temps, cfg, s :| RunsLoosely(job, d0, temps, cfg, s, v.after) && v.ok == (s.o.ret == Nil)
                          && v.shutdown == s.o.shutdown {
        RunLeavesLooseDisk(job, d0, temps, cfg, s, v.after);
      }
    }
  }

  lemma StartDiskIsLoose(job: Job, d: Disk, removeFails: bool)
    requires LooseDisk(job, d)
    ensures LooseDisk(job, StartDisk(job, d, removeFails))
  {
    forall name | name in Cleaned(job.naming, d.files) ensures LooseFile(job, 0, name, d.files[name]) {
      assert LooseFile(job, |d.output|, name, d.files[name]);
    }
  }

  /** It runs on the disk as it found it, but for a full output that it replaces. */
  lemma LooseCallRunsOn(job: Job, d: Disk, v: Visit) returns (d0: Disk)
    requires Sound(job) && LooseCall(job, d, v) && (|d.output| != job.Total() || v.overCover)
    ensures d0 == if Replaces(job, d, v.overCover, v.removeFails) then Disk([], d.files) else d
    ensures (v.after == d0 && !v.ok) || exists temps, cfg, s ::
              RunsLoosely(job, d0, temps, cfg, s, v.after) && v.ok == (s.o.ret == Nil) && v.shutdown == s.o.shutdown
  {
    d0 := StartDisk(job, d, v.removeFails);
  }

  lemma LooseCallKeepsOutput(job: Job, d: Disk, v: Visit)
    requires Sound(job) && LooseCall(job, d, v)
    ensures d.output <= v.after.output || Replaces(job, d, v.overCover, v.removeFails)
  {
    if !Skips(job, d, v.overCover) {
      var d0 := LooseCallRunsOn(job, d, v);
      if temps, cfg, s :| RunsLoosely(job, d0, temps, cfg, s, v.after) {
        RunKeepsOutput(cfg, s);
      }
    }
  }

  /** The run asks only for bytes that are neither in the output nor in a usable chunk file. */
  lemma LooseAskedIsMissing(job: Job, d: Disk, temps: seq<Range>, cfg: Config, s: State, b: int)
    requires Sound(job) && LooseDisk(job, d) && IsPlanOf(job, d, temps, cfg)
    requires NoLoss(|d.output|, temps, job.Total(), job.c)
    requires cfg.Valid() && Reachable(cfg, s) && |s.tasks| == cfg.N() && Asked(cfg, s, b)
    ensures |d.output| <= b < job.Total() && !IsThere(job, d, b)
  {
    var j :| 0 <= j < cfg.N() && s.tasks[j].starts > 0 && cfg.plan[j].start <= b <= cfg.plan[j].end;
    AttemptsBounded(cfg, s, j);
    LoosePlanTiles(job, d, temps, cfg);
    TilesAreAdjacent(cfg.plan, |d.output|, job.Total(), 0);
    if j > 0 { assert cfg.plan[0].end < cfg.plan[j].start; }
    forall name ensures !HasByte(job.naming, d.files, name, b) {
      if HasByte(job.naming, d.files, name, b) {
        LooseFileOfRange(job, d, temps, cfg, j, name, b);
      }
    }
  }

  lemma LooseFileOfRange(job: Job, d: Disk, temps: seq<Range>, cfg: Config, j: nat, name: string, b: int)
    requires Sound(job) && LooseDisk(job, d) && IsPlanOf(job, d, temps, cfg)
    requires NoLoss(|d.output|, temps, job.Total(), job.c) && j < cfg.N()
    requires cfg.plan[j].start <= b <= cfg.plan[j].end && HasByte(job.naming, d.files, name, b)
    ensures cfg.plan[j].completed
  {
    LoosePlanTiles(job, d, temps, cfg);
    var l := FromBefore(job, d, temps, cfg, name);
    FileIsFlagged(job, d, temps, cfg, name, l);
    assert l == j;
  }

  /** The calls of a history, each with its chunk size. */
  ghost predicate IsLooseHistory(job: Job, d: Disk, sizes: seq<int>, visits: seq<Visit>)
    requires |sizes| == |visits|
    decreases |visits|
  {
    visits == []
    || (&& sizes[0] >= 2 && LooseCall(job.(c := sizes[0]), d, visits[0])
        && IsLooseHistory(job, visits[0].after, sizes[1..], visits[1..]))
  }

  /** Resume over many runs whatever chunk size each has, as long as no gap that a run finds loses its last
      byte: the disk stays right, and a call that reports success without a shutdown leaves the remote file. */
  lemma {:induction false} ManyRunsAnyChunk(job: Job, d: Disk, sizes: seq<int>, visits: seq<Visit>, k: nat)
    requires Sound(job) && job.Total() > 0 && LooseDisk(job, d)
    requires |sizes| == |visits| && IsLooseHistory(job, d, sizes, visits) && k < |visits|
    ensures LooseDisk(job, visits[k].after)
    ensures visits[k].ok && !visits[k].shutdown ==> visits[k].after.output == job.remote
    decreases |visits|
  {
    var resized := job.(c := sizes[0]);
    SameDisk(job, resized, d);
    LooseCallKeepsDisk(resized, d, visits[0]);
    SameDisk(job, resized, visits[0].after);
    if k > 0 {
      ManyRunsAnyChunk(job, visits[0].after, sizes[1..], visits[1..], k - 1);
      assert visits[1..][k - 1] == visits[k];
    }
  }

  /** And the output only grows, but for full ones that are replaced. */
  lemma {:induction false} OutputGrowsAnyChunk(job: Job, d: Disk, sizes: seq<int>, visits: seq<Visit>, k: nat)
    requires Sound(job) && |sizes| == |visits| && IsLooseHistory(job, d, sizes, visits) && k < |visits|
    ensures var was := DiskBefore(d, visits, k);
            was.output <= visits[k].after.output || Replaces(job, was, visits[k].overCover, visits[k].removeFails)
    decreases |visits|
  {
    if k == 0 {
      LooseCallKeepsOutput(job.(c := sizes[0]), d, visits[0]);
    } else {
      var after := visits[0].after;
      OutputGrowsAnyChunk(job, after, sizes[1..], visits[1..], k - 1);
      assert visits[1..][k - 1] == visits[k] && DiskBefore(after, visits[1..], k - 1) == DiskBefore(d, visits, k);
    }
  }

  /** What is right on the disk does not depend on the chunk size. */
  lemma SameDisk(job: Job, resized: Job, d: Disk)
    requires resized == job.(c := resized.c)
    ensures LooseDisk(job, d) <==> LooseDisk(resized, d)
  {
    forall name, from | name in Cleaned(job.naming, d.files)
      ensures LooseFile(job, from, name, d.files[name]) <==> LooseFile(resized, from, name, d.files[name])
    {
    }
  }
}
