/** What a run of the downloader can be relied on for, whatever the interleaving. */
module ProtocolSafety {
  import opened Basics
  import opened Planner
  import opened Protocol
  import opened ProtocolInvariant

  // ---------- the output ----------

  /** At every moment the output is what it was at the start, then whole chunks in order, then the
      part of the next chunk that the current copy has written. Nothing is merged twice or out of
      order. */
  lemma OutputInOrder(cfg: Config, s: State)
    requires cfg.Valid() && Reachable(cfg, s)
    ensures s.m.merged <= cfg.N()
    ensures s.m.copied == 0 ==> s.m.output == cfg.Assembled(s.m.merged)
    ensures s.m.copied > 0 ==> s.m.at in {Copying, MergeErr, Failed}
    ensures s.m.copied > 0 ==> s.m.merged < cfg.N() && s.m.copied <= |cfg.Chunk(s.m.merged)|
    ensures s.m.copied > 0 ==> s.m.output == cfg.Assembled(s.m.merged) + cfg.Chunk(s.m.merged)[..s.m.copied]
  {
    ReachableInv(cfg, s);
  }

  /** Without a shutdown, Do returns nil only once every planned chunk is in the output and no chunk file is
      left, not even one that could not be deleted after its copy. */
  lemma NilMeansAllMerged(cfg: Config, s: State)
    requires cfg.Valid() && Reachable(cfg, s)
    requires s.o.ret == Nil && !s.o.shutdown
    ensures cfg.N() > 0 && s.m.popped == s.m.merged == s.m.removed == cfg.N()
    ensures s.m.output == cfg.Assembled(cfg.N())
    ensures |s.tasks| == cfg.N()
    ensures forall j :: 0 <= j < cfg.N() ==> s.tasks[j].file == None && IsDone(s.tasks[j].phase)
  {
    ReachableInv(cfg, s);
    forall j | 0 <= j < cfg.N() ensures s.tasks[j].file == None && IsDone(s.tasks[j].phase) {
      assert TaskOk(cfg, s, j);
    }
  }

  /** The start of chunk number k of a tiling, or the end of the file behind the last one. */
  function TileStart(cfg: Config, k: nat): int
    requires k <= cfg.N()
  {
    if k < cfg.N() then cfg.plan[k].start else |cfg.remote|
  }

  lemma {:induction false} TilesAreAdjacent(plan: seq<Range>, start: int, total: int, k: nat)
    requires Tiles(plan, start, total) && k < |plan|
    ensures k == 0 ==> plan[k].start == start
    ensures plan[k].end + 1 == if k + 1 < |plan| then plan[k + 1].start else total
  {
    if k > 0 {
      TilesAreAdjacent(plan[1..], plan[0].end + 1, total, k - 1);
    } else if |plan| > 1 {
      assert plan[1..][0] == plan[1];
    }
  }

  lemma {:induction false} AssembledTiles(cfg: Config, from: nat, k: nat)
    requires cfg.Valid() && k <= cfg.N() && from <= |cfg.remote|
    requires cfg.base == cfg.remote[..from] && Tiles(cfg.plan, from, |cfg.remote|)
    ensures 0 <= TileStart(cfg, k) <= |cfg.remote| && cfg.Assembled(k) == cfg.remote[..TileStart(cfg, k)]
  {
    if k == 0 {
      if cfg.N() > 0 { TilesAreAdjacent(cfg.plan, from, |cfg.remote|, 0); }
    } else {
      AssembledTiles(cfg, from, k - 1);
      TilesAreAdjacent(cfg.plan, from, |cfg.remote|, k - 1);
    }
  }

  /** If the output starts as a prefix of the remote file and the plan tiles the rest, then nil
      means the output is the remote file. */
  lemma NilMeansComplete(cfg: Config, from: nat, s: State)
    requires cfg.Valid() && from <= |cfg.remote|
    requires cfg.base == cfg.remote[..from] && Tiles(cfg.plan, from, |cfg.remote|)
    requires Reachable(cfg, s) && s.o.ret == Nil && !s.o.shutdown
    ensures s.m.output == cfg.remote
  {
    NilMeansAllMerged(cfg, s);
    AssembledTiles(cfg, from, cfg.N());
  }

  /** A chunk that ended in an error, or was dropped, is never merged. */
  lemma FailedIsNeverMerged(cfg: Config, s: State, j: nat)
    requires cfg.Valid() && Reachable(cfg, s) && j < cfg.N()
    ensures |s.tasks| == cfg.N()
    ensures s.tasks[j].phase in {OpenErr, RetryErr, Errored, Dropped} ==> s.m.popped <= j && s.m.merged <= j
  {
    ReachableInv(cfg, s);
    assert TaskOk(cfg, s, j);
  }

  // ---------- the chunk files of merged chunks ----------

  predicate NoneOnDisk(s: State, k: nat) {
    forall j :: 0 <= j < k && j < |s.tasks| ==> s.tasks[j].file.None?
  }

  /** No deletion of a merged chunk's file failed. */
  ghost predicate RemovalsWork(events: seq<Event>) {
    forall k :: 0 <= k < |events| ==> events[k] != OfMerger(RemoveFail)
  }

  /** The files of the chunks the merger is through with are gone, and it is through with a copied chunk
      as soon as it is not about to delete its file. */
  predicate Tidy(s: State) {
    NoneOnDisk(s, s.m.removed) && (s.m.merged > s.m.removed ==> s.m.at == Removing)
  }

  lemma TaskStepIsTidy(cfg: Config, s: State, t: nat, e: TaskStep)
    requires cfg.Valid() && Inv(cfg, s) && Tidy(s) && t < cfg.N() && TaskEnabled(cfg, s, t, e)
    ensures Tidy(TaskApply(cfg, s, t, e))
  {
    TaskFrame(cfg, s, t, e);
    assert TaskOk(cfg, s, t);
    var s' := TaskApply(cfg, s, t, e);
    assert t < s.m.removed ==> s'.tasks[t].file.None?;
  }

  lemma MergerStepIsTidy(cfg: Config, s: State, e: MergerStep)
    requires cfg.Valid() && |s.tasks| == cfg.N() && MergerOk(cfg, s.m, s.o) && Tidy(s)
    requires MergerEnabled(cfg, s, e) && e != RemoveFail
    ensures Tidy(MergerApply(cfg, s, e))
  {
  }

  lemma StepIsTidy(cfg: Config, s: State, e: Event)
    requires cfg.Valid() && Inv(cfg, s) && Tidy(s) && Enabled(cfg, s, e) && e != OfMerger(RemoveFail)
    ensures Tidy(Apply(cfg, s, e))
  {
    match e
    case OfTask(t, step) => TaskStepIsTidy(cfg, s, t, step);
    case OfMerger(m) => MergerStepIsTidy(cfg, s, m);
    case OfControl(c) => assert ControlApply(cfg, s, c).tasks == s.tasks && ControlApply(cfg, s, c).m == s.m;
  }

  lemma {:induction false} RunIsTidy(cfg: Config, s: State, events: seq<Event>, s': State)
    requires cfg.Valid() && Inv(cfg, s) && Tidy(s) && RemovalsWork(events)
    requires RunFrom(cfg, s, events) == Some(s')
    ensures Tidy(s')
    decreases |events|
  {
    if events != [] {
      assert events[0] != OfMerger(RemoveFail);
      StepIsTidy(cfg, s, events[0]);
      StepKeepsInv(cfg, s, events[0]);
      RunIsTidy(cfg, Apply(cfg, s, events[0]), events[1..], s');
    }
  }

  /** As long as every deletion works, in every run the file of each chunk that was copied is gone, but for one
      that the merger is just about to delete. */
  lemma MergedFilesAreGone(cfg: Config, events: seq<Event>, s: State)
    requires cfg.Valid() && RunFrom(cfg, Init(cfg), events) == Some(s) && RemovalsWork(events)
    ensures NoneOnDisk(s, s.m.removed)
    ensures s.m.merged == if s.m.at == Removing then s.m.removed + 1 else s.m.removed
  {
    InitInv(cfg);
    RunIsTidy(cfg, Init(cfg), events, s);
    RunKeepsInv(cfg, Init(cfg), events, s);
  }

  // ---------- the hand-off ----------

  /** No lost wakeup: a completed chunk that was not taken is in the map; and when the merger sits
      waiting for a chunk that has completed, either its notifier is pending or the worker is just
      about to start it. */
  lemma NoLostWakeup(cfg: Config, s: State, j: nat)
    requires cfg.Valid() && Reachable(cfg, s) && j < cfg.N()
    ensures |s.tasks| == cfg.N()
    ensures IsDone(s.tasks[j].phase) && s.m.popped <= j ==> j in s.taskMap
    ensures s.o.ret == NotYet && s.m.at == Awaiting && s.m.i == j && IsDone(s.tasks[j].phase) ==>
              j in s.notify || s.tasks[j].phase == Mapped
  {
    ReachableInv(cfg, s);
    assert TaskOk(cfg, s, j);
  }

  /** What is in the map or still announced has completed; entries below the merger's index are
      left over, and the merger is through with their chunks. */
  lemma StaleEntriesAreMerged(cfg: Config, s: State, j: nat)
    requires cfg.Valid() && Reachable(cfg, s)
    requires j in s.taskMap || j in s.notify
    ensures j < cfg.N() == |s.tasks| && IsDone(s.tasks[j].phase)
    ensures j < s.m.popped && s.m.at in {AtTop, Awaiting} ==> j < s.m.merged && j < s.m.removed
  {
    ReachableInv(cfg, s);
    assert TaskOk(cfg, s, j);
  }

  // ---------- attempts and concurrency ----------

  /** At most maxRetry + 1 requests a chunk, none for a chunk found on disk. */
  lemma AttemptsBounded(cfg: Config, s: State, j: nat)
    requires cfg.Valid() && Reachable(cfg, s) && j < cfg.N()
    ensures |s.tasks| == cfg.N() && s.tasks[j].starts <= cfg.maxRetry + 1
    ensures cfg.plan[j].completed ==> s.tasks[j].starts == 0
    ensures s.tasks[j].phase == RetryErr ==> s.tasks[j].starts == cfg.maxRetry + 1
  {
    ReachableInv(cfg, s);
    assert TaskOk(cfg, s, j);
  }

  /** At most min(concurrency, maxThread) requests at once. */
  lemma {:induction false} InFlightIsOccupied(cfg: Config, tasks: seq<Task>)
    requires cfg.Valid() && |tasks| <= cfg.N()
    ensures Total(cfg, InFlight, tasks) <= Total(cfg, Occupied, tasks)
  {
    if tasks != [] { InFlightIsOccupied(cfg, tasks[..|tasks| - 1]); }
  }

  function RunningCount(tasks: seq<Task>): nat {
    if tasks == [] then 0
    else RunningCount(tasks[..|tasks| - 1]) + if tasks[|tasks| - 1].phase == Running then 1 else 0
  }

  lemma {:induction false} RunningIsInFlight(cfg: Config, tasks: seq<Task>)
    requires cfg.Valid() && |tasks| <= cfg.N()
    ensures RunningCount(tasks) <= Total(cfg, InFlight, tasks)
  {
    if tasks != [] { RunningIsInFlight(cfg, tasks[..|tasks| - 1]); }
  }

  lemma ConcurrencyBounded(cfg: Config, s: State)
    requires cfg.Valid() && Reachable(cfg, s)
    ensures RunningCount(s.tasks) <= Min(cfg.concurrency, cfg.maxThread)
  {
    ReachableInv(cfg, s);
    RunningIsInFlight(cfg, s.tasks);
    InFlightIsOccupied(cfg, s.tasks);
  }

  /** Nobody is inside handleTask once the wait group was seen empty, if Do has not failed. */
  predicate Quiet(cfg: Config, s: State)
    requires cfg.Valid() && |s.tasks| == cfg.N()
  {
    s.o.wgDone && s.o.ret != Err ==> Total(cfg, InFlight, s.tasks) == 0
  }

  lemma TaskStepIsQuiet(cfg: Config, s: State, t: nat, e: TaskStep)
    requires cfg.Valid() && Inv(cfg, s) && Quiet(cfg, s) && t < cfg.N() && TaskEnabled(cfg, s, t, e)
    ensures Quiet(cfg, TaskApply(cfg, s, t, e))
  {
    assert TaskOk(cfg, s, t);
    TaskFrame(cfg, s, t, e);
    TotalUpdate(cfg, InFlight, s.tasks, t, TaskAfter(cfg, s, t, e));
    if s.o.wgDone && s.o.ret != Err { TotalAtLeast(cfg, InFlight, s.tasks, t); }
  }

  lemma MergerStepIsQuiet(cfg: Config, s: State, e: MergerStep)
    requires cfg.Valid() && |s.tasks| == cfg.N() && Quiet(cfg, s) && MergerEnabled(cfg, s, e)
    ensures |MergerApply(cfg, s, e).tasks| == cfg.N() && Quiet(cfg, MergerApply(cfg, s, e))
  {
    PhasesStay(cfg, s, e);
    TotalsStay(cfg, s.tasks, MergerApply(cfg, s, e).tasks);
    assert MergerApply(cfg, s, e).o.wgDone == s.o.wgDone;
    assert MergerApply(cfg, s, e).o.ret != Err ==> s.o.ret != Err;
  }

  lemma StepIsQuiet(cfg: Config, s: State, e: Event)
    requires cfg.Valid() && Inv(cfg, s) && Quiet(cfg, s) && Enabled(cfg, s, e)
    ensures |Apply(cfg, s, e).tasks| == cfg.N() && Quiet(cfg, Apply(cfg, s, e))
  {
    match e
    case OfTask(t, step) => TaskStepIsQuiet(cfg, s, t, step);
    case OfMerger(m) => MergerStepIsQuiet(cfg, s, m);
    case OfControl(c) => assert ControlApply(cfg, s, c).tasks == s.tasks;
  }

  lemma {:induction false} RunIsQuiet(cfg: Config, s: State, events: seq<Event>, s': State)
    requires cfg.Valid() && Inv(cfg, s) && Quiet(cfg, s) && RunFrom(cfg, s, events) == Some(s')
    ensures |s'.tasks| == cfg.N() && Quiet(cfg, s')
    decreases |events|
  {
    if events != [] {
      StepIsQuiet(cfg, s, events[0]);
      StepKeepsInv(cfg, s, events[0]);
      RunIsQuiet(cfg, Apply(cfg, s, events[0]), events[1..], s');
    }
  }

  /** When Do has returned nil no worker is at a chunk, nor will one be: not even after a shutdown. */
  lemma NilMeansQuiet(cfg: Config, s: State)
    requires cfg.Valid() && Reachable(cfg, s) && s.o.ret == Nil
    ensures |s.tasks| == cfg.N() && Total(cfg, InFlight, s.tasks) == 0 && RunningCount(s.tasks) == 0
  {
    InitInv(cfg);
    var events :| RunFrom(cfg, Init(cfg), events) == Some(s);
    RunIsQuiet(cfg, Init(cfg), events, s);
    ReachableInv(cfg, s);
    RunningIsInFlight(cfg, s.tasks);
  }

  /** Do fails only if a planning or file operation failed, or every attempt at some chunk did. */
  lemma ErrorHasACause(cfg: Config, s: State)
    requires cfg.Valid() && Reachable(cfg, s) && s.o.ret == Err
    ensures |s.tasks| == cfg.N()
    ensures s.o.broken ||
            exists j :: 0 <= j < cfg.N() && s.tasks[j].phase == Errored && s.tasks[j].starts == cfg.maxRetry + 1
  {
    ReachableInv(cfg, s);
    if !s.o.broken {
      assert TaskOk(cfg, s, s.o.blamed);
    }
  }

  // ---------- the progress counter ----------

  function SizesTo(cfg: Config, k: nat): nat
    requires cfg.Valid() && k <= cfg.N()
  {
    if k == 0 then 0 else SizesTo(cfg, k - 1) + Size(cfg, k - 1)
  }

  predicate IsCounted(t: Task) { t.phase == Counted || IsDone(t.phase) }

  lemma {:induction false} CountedAtMost(cfg: Config, tasks: seq<Task>)
    requires cfg.Valid() && |tasks| <= cfg.N()
    ensures Total(cfg, Counting, tasks) <= SizesTo(cfg, |tasks|)
    ensures Total(cfg, Counting, tasks) == SizesTo(cfg, |tasks|) <==>
            forall j :: 0 <= j < |tasks| ==> IsCounted(tasks[j])
  {
    if tasks != [] {
      var n := |tasks| - 1;
      CountedAtMost(cfg, tasks[..n]);
      assert forall j :: 0 <= j < n ==> tasks[..n][j] == tasks[j];
      assert (forall j :: 0 <= j < |tasks| ==> IsCounted(tasks[j]))
        <==> IsCounted(tasks[n]) && (forall j :: 0 <= j < n ==> IsCounted(tasks[..n][j]));
    }
  }

  lemma {:induction false} SizesOfTiles(cfg: Config, from: nat, k: nat)
    requires cfg.Valid() && k <= cfg.N() && from <= |cfg.remote| && Tiles(cfg.plan, from, |cfg.remote|)
    ensures from + SizesTo(cfg, k) == TileStart(cfg, k)
  {
    if k == 0 {
      if cfg.N() > 0 { TilesAreAdjacent(cfg.plan, from, |cfg.remote|, 0); }
    } else {
      SizesOfTiles(cfg, from, k - 1);
      TilesAreAdjacent(cfg.plan, from, |cfg.remote|, k - 1);
    }
  }

  /** The counter is the starting offset plus the size of every chunk counted so far, each once
      however often it was retried; it never exceeds the file size, and reaches it exactly when
      the last chunk is counted. */
  lemma ProgressConserved(cfg: Config, s: State)
    requires cfg.Valid() && Reachable(cfg, s)
    requires |cfg.base| <= |cfg.remote| && Tiles(cfg.plan, |cfg.base|, |cfg.remote|)
    ensures |s.tasks| == cfg.N()
    ensures s.downloaded == (if s.feed.planned then |cfg.base| else 0) + Total(cfg, Counting, s.tasks)
    ensures s.downloaded <= |cfg.remote|
    ensures s.feed.planned ==>
              (s.downloaded == |cfg.remote| <==> forall j :: 0 <= j < cfg.N() ==> IsCounted(s.tasks[j]))
  {
    ReachableInv(cfg, s);
    CountedAtMost(cfg, s.tasks);
    SizesOfTiles(cfg, |cfg.base|, cfg.N());
    assert TileStart(cfg, cfg.N()) == |cfg.remote|;
  }
}
