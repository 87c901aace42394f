/** The invariant of the download protocol, kept by every event. */
module ProtocolInvariant {
  import opened Basics
  import opened Planner
  import opened Protocol

  /** All that the invariant says about one chunk depends on this much of the state. */
  datatype View = View(t: Task, completed: bool, undispatched: bool, popped: bool, removed: bool,
                       inMap: bool, inNotify: bool, awaited: bool, cleaned: bool, ret: Ret, broken: bool,
                       shutdown: bool)

  function ViewOf(cfg: Config, s: State, j: nat): View
    requires cfg.Valid() && |s.tasks| == cfg.N() && j < cfg.N()
  {
    View(s.tasks[j], cfg.plan[j].completed, j >= s.feed.next, j < s.m.popped, j < s.m.removed,
         j in s.taskMap, j in s.notify, s.m.at == Awaiting && s.m.i == j, s.m.at == Merged,
         s.o.ret, s.o.broken, s.o.shutdown)
  }

  /** How often a chunk was requested, against how often it was retried. */
  predicate StartsOk(cfg: Config, v: View) {
    && v.t.retry <= cfg.maxRetry
    && if v.completed then
         && v.t.starts == v.t.retry == 0
         && (v.t.phase.Waiting? || v.t.phase.Held? || v.t.phase.Counted? || IsDone(v.t.phase) || v.t.phase.Dropped?)
       else
         match v.t.phase
         case Waiting => v.t.starts == v.t.retry
         case Held => v.t.starts == v.t.retry
         case Resending => v.t.starts == v.t.retry
         case OpenErr => v.t.starts == v.t.retry
         case Dropped => v.t.starts == v.t.retry
         case Errored => v.t.starts == v.t.retry + 1 == cfg.maxRetry + 1 || (v.broken && v.t.starts == v.t.retry)
         case RetryErr => v.t.starts == v.t.retry + 1 == cfg.maxRetry + 1
         case _ => v.t.starts == v.t.retry + 1
  }

  /** What is on disk for a chunk. The file of a merged chunk stays when it could not be deleted, until the
      chunk directory is. */
  predicate FileOk(cfg: Config, j: nat, v: View)
    requires cfg.Valid() && j < cfg.N()
  {
    && (v.t.file.Some? ==> v.t.file.value <= cfg.Chunk(j))
    && (v.t.phase.Running? ==> v.t.file.Some?)
    && (!v.removed && (v.completed || v.t.phase.Counted? || IsDone(v.t.phase)) ==> v.t.file == Some(cfg.Chunk(j)))
    && (v.removed ==> v.popped && (v.t.file.None? || v.t.file == Some(cfg.Chunk(j))))
    && (v.cleaned ==> v.removed && v.t.file.None?)
  }

  /** The hand-off to the merger: a completed chunk that was not taken is in the map, and if the
      merger is waiting for it a notifier is on its way. */
  predicate HandOffOk(v: View) {
    && (v.t.phase.Waiting? <==> v.undispatched)
    && (v.popped ==> IsDone(v.t.phase))
    && (v.inMap ==> IsDone(v.t.phase))
    && (IsDone(v.t.phase) && !v.popped ==> v.inMap)
    && (v.inNotify ==> v.t.phase.Finished?)
    && (v.awaited && v.t.phase.Finished? && v.ret == NotYet ==> v.inNotify)
    && (v.t.phase.Errored? ==> v.ret == Err)
    && (v.t.phase.Dropped? ==> v.shutdown)
    && (v.t.phase.OpenErr? ==> v.broken)
  }

  predicate ViewOk(cfg: Config, j: nat, v: View)
    requires cfg.Valid() && j < cfg.N()
  {
    StartsOk(cfg, v) && FileOk(cfg, j, v) && HandOffOk(v)
  }

  predicate TaskOk(cfg: Config, s: State, j: nat)
    requires cfg.Valid() && |s.tasks| == cfg.N() && j < cfg.N()
  {
    ViewOk(cfg, j, ViewOf(cfg, s, j))
  }

  ghost predicate TasksOk(cfg: Config, s: State)
    requires cfg.Valid() && |s.tasks| == cfg.N()
  {
    forall j {:trigger TaskOk(cfg, s, j)} :: 0 <= j < cfg.N() ==> TaskOk(cfg, s, j)
  }

  /** Where the merger stands, and how many chunks it has taken, copied and deleted. */
  predicate MergerOk(cfg: Config, m: Merge, o: Outcome)
    requires cfg.Valid()
  {
    && m.removed <= m.merged <= m.popped <= cfg.N() && m.i <= cfg.N()
    && m.popped <= m.removed + 1
    && (m.copied > 0 ==> m.merged < m.popped)
    && (m.merged < cfg.N() ==> m.copied <= Size(cfg, m.merged))
    && match m.at
       case Opening => m.i == m.popped == 0
       case AtTop => m.i == m.removed == m.popped && (m.i < cfg.N() || cfg.N() == 0)
       case Awaiting => m.i == m.removed == m.popped && (m.i < cfg.N() || cfg.N() == 0)
       case Popped => m.i == m.removed == m.merged && m.popped == m.i + 1 && m.copied == 0
       case Copying => m.i == m.removed == m.merged && m.popped == m.i + 1
       case Removing => m.i == m.removed && m.merged == m.popped == m.i + 1
       case Cleaning => m.removed == cfg.N() > 0
       case Merged => m.removed == cfg.N() > 0
       case MergeErr => o.broken
       case Failed => o.broken && o.ret == Err
       case Aborted => m.copied == 0 && (o.shutdown || o.ret == Err)
  }

  predicate OutputOk(cfg: Config, m: Merge)
    requires cfg.Valid()
  {
    && m.merged <= cfg.N()
    && (m.copied > 0 ==> m.merged < cfg.N() && m.copied <= Size(cfg, m.merged))
    && m.output == cfg.Assembled(m.merged) + (if m.copied > 0 then cfg.Chunk(m.merged)[..m.copied] else [])
  }

  predicate DispatcherOk(cfg: Config, f: Feed, m: Merge, o: Outcome) {
    && f.next <= cfg.N()
    && (f.next > 0 || m.popped > 0 || f.disp == Sending ==> f.planned)
    && (f.disp == Planning || f.disp == PlanErr ==> !f.planned)
    && (f.planned ==> f.lastIndex == cfg.N() - 1)
    && (f.disp == PlanErr ==> o.broken)
    && (f.disp == Stopped ==> o.ret != NotYet || o.shutdown)
  }

  predicate ReturnOk(m: Merge, o: Outcome) {
    && (o.wgDone ==> MergerDone(m.at))
    && (o.ret == Nil ==> o.wgDone && (m.at == Merged || (m.at == Aborted && o.shutdown)))
  }

  predicate BlameOk(cfg: Config, s: State)
    requires |s.tasks| == cfg.N()
  {
    s.o.ret == Err && !s.o.broken ==> s.o.blamed < cfg.N() && s.tasks[s.o.blamed].phase == Errored
  }

  predicate SlotsOk(cfg: Config, s: State)
    requires cfg.Valid() && |s.tasks| == cfg.N()
  {
    && Total(cfg, Occupied, s.tasks) + s.exited <= cfg.concurrency
    && Total(cfg, InFlight, s.tasks) <= cfg.maxThread
    && (s.exited > 0 ==> s.o.ret != NotYet || s.o.shutdown || s.o.cancelled)
  }

  predicate CountOk(cfg: Config, s: State)
    requires cfg.Valid() && |s.tasks| == cfg.N()
  {
    s.downloaded == (if s.feed.planned then |cfg.base| else 0) + Total(cfg, Counting, s.tasks)
  }

  predicate IndicesOk(cfg: Config, s: State) {
    (forall j :: j in s.notify ==> j < cfg.N()) && (forall j :: j in s.taskMap ==> j < cfg.N())
  }

  predicate RestOk(cfg: Config, s: State)
    requires cfg.Valid() && |s.tasks| == cfg.N()
  {
    && MergerOk(cfg, s.m, s.o) && DispatcherOk(cfg, s.feed, s.m, s.o) && ReturnOk(s.m, s.o)
    && BlameOk(cfg, s) && IndicesOk(cfg, s)
  }

  ghost predicate Inv(cfg: Config, s: State)
    requires cfg.Valid()
  {
    && |s.tasks| == cfg.N()
    && TasksOk(cfg, s) && RestOk(cfg, s) && OutputOk(cfg, s.m) && SlotsOk(cfg, s) && CountOk(cfg, s)
  }

  // ---------- it holds at the start ----------

  lemma {:induction false} FreshTotals(cfg: Config, g: Gauge, tasks: seq<Task>)
    requires cfg.Valid() && |tasks| <= cfg.N() && g != Budget
    requires forall k :: 0 <= k < |tasks| ==> tasks[k].phase == Waiting
    ensures Total(cfg, g, tasks) == 0
  {
    if tasks != [] { FreshTotals(cfg, g, tasks[..|tasks| - 1]); }
  }

  lemma InitInv(cfg: Config)
    requires cfg.Valid()
    ensures Inv(cfg, Init(cfg))
  {
    var s := Init(cfg);
    FreshTotals(cfg, Occupied, s.tasks);
    FreshTotals(cfg, InFlight, s.tasks);
    FreshTotals(cfg, Counting, s.tasks);
    forall j | 0 <= j < cfg.N() ensures TaskOk(cfg, s, j) {
      assert s.tasks[j] == InitTask(cfg, j);
    }
  }

  // ---------- every event keeps it ----------

  // A step on one chunk: what it means for the chunk itself, in three parts, and for the others.

  lemma OwnStartsKept(cfg: Config, s: State, t: nat, e: TaskStep)
    requires cfg.Valid() && |s.tasks| == cfg.N() && t < cfg.N() && TaskOk(cfg, s, t) && TaskEnabled(cfg, s, t, e)
    ensures StartsOk(cfg, ViewOf(cfg, TaskApply(cfg, s, t, e), t))
  {
  }

  lemma OwnFileKept(cfg: Config, s: State, t: nat, e: TaskStep)
    requires cfg.Valid() && |s.tasks| == cfg.N() && t < cfg.N() && TaskOk(cfg, s, t) && TaskEnabled(cfg, s, t, e)
    ensures FileOk(cfg, t, ViewOf(cfg, TaskApply(cfg, s, t, e), t))
  {
  }

  lemma OwnHandOffKept(cfg: Config, s: State, t: nat, e: TaskStep)
    requires cfg.Valid() && |s.tasks| == cfg.N() && t < cfg.N() && TaskOk(cfg, s, t) && TaskEnabled(cfg, s, t, e)
    ensures HandOffOk(ViewOf(cfg, TaskApply(cfg, s, t, e), t))
  {
  }

  lemma OtherView(cfg: Config, s: State, t: nat, e: TaskStep, j: nat)
    requires cfg.Valid() && |s.tasks| == cfg.N() && t < cfg.N() && TaskEnabled(cfg, s, t, e)
    requires j < cfg.N() && j != t
    ensures var v, v' := ViewOf(cfg, s, j), ViewOf(cfg, TaskApply(cfg, s, t, e), j);
            v' == v || (s.o.ret == NotYet && v' == v.(ret := Err)) || v' == v.(broken := true)
  {
    var s' := TaskApply(cfg, s, t, e);
    TaskFrame(cfg, s, t, e);
    assert s'.tasks[j] == s.tasks[j];
  }

  /** What a step on a chunk can change besides it. */
  lemma TaskFrame(cfg: Config, s: State, t: nat, e: TaskStep)
    requires cfg.Valid() && |s.tasks| == cfg.N() && t < cfg.N() && TaskEnabled(cfg, s, t, e)
    ensures var s' := TaskApply(cfg, s, t, e);
            && s'.tasks == s.tasks[t := TaskAfter(cfg, s, t, e)] && s'.m == s.m
            && s'.feed.next == s.feed.next + (if e.Dispatch? then 1 else 0) && (e.Dispatch? ==> t == s.feed.next)
            && s'.taskMap == s.taskMap + (if e.PutMap? then {t} else {})
            && s'.notify == s.notify + (if e.Spawn? then {t} else {})
            && s'.o.shutdown == s.o.shutdown
            && (|| (s'.o.ret == s.o.ret && s'.o.broken == s.o.broken)
                || (s.o.ret == NotYet && s'.o.ret == Err && s'.o.broken == s.o.broken)
                || (s'.o.ret == s.o.ret && s'.o.broken))
  {
  }

  lemma StillOk(cfg: Config, j: nat, v: View)
    requires cfg.Valid() && j < cfg.N() && ViewOk(cfg, j, v)
    ensures ViewOk(cfg, j, v.(broken := true)) && (v.ret == NotYet ==> ViewOk(cfg, j, v.(ret := Err)))
  {
  }

  /** The other chunks notice nothing but, at most, that Do has an error. */
  lemma OtherTaskKept(cfg: Config, s: State, t: nat, e: TaskStep, j: nat)
    requires cfg.Valid() && |s.tasks| == cfg.N() && t < cfg.N() && TaskEnabled(cfg, s, t, e)
    requires j < cfg.N() && j != t && TaskOk(cfg, s, j)
    ensures TaskOk(cfg, TaskApply(cfg, s, t, e), j)
  {
    OtherView(cfg, s, t, e, j);
    StillOk(cfg, j, ViewOf(cfg, s, j));
  }

  lemma TaskStepSlots(cfg: Config, s: State, t: nat, e: TaskStep)
    requires cfg.Valid() && |s.tasks| == cfg.N() && t < cfg.N() && TaskOk(cfg, s, t) && TaskEnabled(cfg, s, t, e)
    requires SlotsOk(cfg, s)
    ensures SlotsOk(cfg, TaskApply(cfg, s, t, e))
  {
    var task := TaskAfter(cfg, s, t, e);
    TotalUpdate(cfg, Occupied, s.tasks, t, task);
    TotalUpdate(cfg, InFlight, s.tasks, t, task);
  }

  lemma TaskStepCount(cfg: Config, s: State, t: nat, e: TaskStep)
    requires cfg.Valid() && |s.tasks| == cfg.N() && t < cfg.N() && TaskOk(cfg, s, t) && TaskEnabled(cfg, s, t, e)
    requires CountOk(cfg, s)
    ensures CountOk(cfg, TaskApply(cfg, s, t, e))
  {
    TotalUpdate(cfg, Counting, s.tasks, t, TaskAfter(cfg, s, t, e));
  }

  lemma TaskStepRest(cfg: Config, s: State, t: nat, e: TaskStep)
    requires cfg.Valid() && |s.tasks| == cfg.N() && t < cfg.N() && TaskOk(cfg, s, t) && TaskEnabled(cfg, s, t, e)
    requires RestOk(cfg, s)
    ensures RestOk(cfg, TaskApply(cfg, s, t, e))
  {
    TaskStepBlame(cfg, s, t, e);
    assert TaskApply(cfg, s, t, e).m == s.m;
  }

  lemma TaskStepBlame(cfg: Config, s: State, t: nat, e: TaskStep)
    requires cfg.Valid() && |s.tasks| == cfg.N() && t < cfg.N() && TaskOk(cfg, s, t) && TaskEnabled(cfg, s, t, e)
    requires BlameOk(cfg, s)
    ensures BlameOk(cfg, TaskApply(cfg, s, t, e))
  {
  }

  // A step of the merger: what one chunk notices of it.

  lemma CheckTasks(cfg: Config, s: State, j: nat)
    requires cfg.Valid() && |s.tasks| == cfg.N() && j < cfg.N() && TaskOk(cfg, s, j) && MergerOk(cfg, s.m, s.o)
    requires MergerEnabled(cfg, s, Check)
    ensures TaskOk(cfg, MergerApply(cfg, s, Check), j)
  {
  }

  lemma HearTasks(cfg: Config, s: State, from: nat, j: nat)
    requires cfg.Valid() && |s.tasks| == cfg.N() && j < cfg.N() && TaskOk(cfg, s, j) && MergerOk(cfg, s.m, s.o)
    requires MergerEnabled(cfg, s, Hear(from)) && from < cfg.N() && TaskOk(cfg, s, from)
    ensures TaskOk(cfg, MergerApply(cfg, s, Hear(from)), j)
  {
  }

  lemma RemoveTasks(cfg: Config, s: State, e: MergerStep, j: nat)
    requires cfg.Valid() && |s.tasks| == cfg.N() && j < cfg.N() && TaskOk(cfg, s, j) && MergerOk(cfg, s.m, s.o)
    requires MergerEnabled(cfg, s, e) && (e.Remove? || e.RemoveFail?)
    ensures TaskOk(cfg, MergerApply(cfg, s, e), j)
  {
  }

  lemma CleanTasks(cfg: Config, s: State, e: MergerStep, j: nat)
    requires cfg.Valid() && |s.tasks| == cfg.N() && j < cfg.N() && TaskOk(cfg, s, j) && MergerOk(cfg, s.m, s.o)
    requires MergerEnabled(cfg, s, e) && Cleans(e)
    ensures TaskOk(cfg, MergerApply(cfg, s, e), j)
  {
  }

  predicate Taking(e: MergerStep) { e.Check? || e.Hear? }

  predicate Copies(e: MergerStep) { e.CopySome? || e.CopyEnd? }

  predicate Removes(e: MergerStep) { e.Remove? || e.RemoveFail? }

  predicate Cleans(e: MergerStep) { e.Clean? || e.CleanFail? }

  lemma OtherMergerView(cfg: Config, s: State, e: MergerStep, j: nat)
    requires cfg.Valid() && |s.tasks| == cfg.N() && j < cfg.N() && MergerEnabled(cfg, s, e)
    requires !Taking(e) && !Removes(e) && !Cleans(e)
    ensures var v, v' := ViewOf(cfg, s, j), ViewOf(cfg, MergerApply(cfg, s, e), j);
            && v' == v.(awaited := v'.awaited, cleaned := false, ret := v'.ret, broken := v'.broken)
            && (v'.awaited ==> v.awaited) && (v.broken ==> v'.broken)
            && (v'.ret == v.ret || (v.ret == NotYet && v'.ret == Err))
  {
    assert MergerApply(cfg, s, e).tasks == s.tasks;
  }

  lemma OtherMergerTasks(cfg: Config, s: State, e: MergerStep, j: nat)
    requires cfg.Valid() && |s.tasks| == cfg.N() && j < cfg.N() && TaskOk(cfg, s, j) && MergerEnabled(cfg, s, e)
    requires !Taking(e) && !Removes(e) && !Cleans(e)
    ensures TaskOk(cfg, MergerApply(cfg, s, e), j)
  {
    OtherMergerView(cfg, s, e, j);
  }

  // What it means for everything else.

  lemma TakingRest(cfg: Config, s: State, e: MergerStep)
    requires cfg.Valid() && Inv(cfg, s) && MergerEnabled(cfg, s, e) && Taking(e)
    ensures RestOk(cfg, MergerApply(cfg, s, e))
  {
    assert e.Hear? ==> e.from < cfg.N();
    if s.m.i < cfg.N() { assert TaskOk(cfg, s, s.m.i); }
  }

  lemma CopyRest(cfg: Config, s: State, e: MergerStep)
    requires cfg.Valid() && |s.tasks| == cfg.N() && RestOk(cfg, s) && MergerEnabled(cfg, s, e) && Copies(e)
    requires TaskOk(cfg, s, s.m.i)
    ensures RestOk(cfg, MergerApply(cfg, s, e))
  {
    assert s.tasks[s.m.i].file.value <= cfg.Chunk(s.m.i);
  }

  lemma RemoveRest(cfg: Config, s: State, e: MergerStep)
    requires cfg.Valid() && |s.tasks| == cfg.N() && RestOk(cfg, s) && MergerEnabled(cfg, s, e) && Removes(e)
    ensures RestOk(cfg, MergerApply(cfg, s, e))
  {
  }

  lemma CleanRest(cfg: Config, s: State, e: MergerStep)
    requires cfg.Valid() && |s.tasks| == cfg.N() && RestOk(cfg, s) && MergerEnabled(cfg, s, e) && Cleans(e)
    ensures RestOk(cfg, MergerApply(cfg, s, e))
  {
  }

  lemma OtherMergerRest(cfg: Config, s: State, e: MergerStep)
    requires cfg.Valid() && |s.tasks| == cfg.N() && RestOk(cfg, s) && MergerEnabled(cfg, s, e)
    requires !Taking(e) && !Copies(e) && !Removes(e) && !Cleans(e)
    ensures RestOk(cfg, MergerApply(cfg, s, e))
  {
  }

  lemma MergerStepOutput(cfg: Config, s: State, e: MergerStep)
    requires cfg.Valid() && Inv(cfg, s) && MergerEnabled(cfg, s, e)
    ensures OutputOk(cfg, MergeAfter(cfg, s, e))
  {
    if Copies(e) { CopyOutput(cfg, s, e); }
  }

  lemma CopyOutput(cfg: Config, s: State, e: MergerStep)
    requires cfg.Valid() && |s.tasks| == cfg.N() && MergerEnabled(cfg, s, e) && Copies(e)
    requires MergerOk(cfg, s.m, s.o) && OutputOk(cfg, s.m) && TaskOk(cfg, s, s.m.i)
    ensures OutputOk(cfg, MergeAfter(cfg, s, e))
  {
    assert s.tasks[s.m.i].file == Some(cfg.Chunk(s.m.i));
    if e.CopySome? {
      CopyGrows(cfg.Assembled(s.m.merged), cfg.Chunk(s.m.i), s.m.copied, e.upTo);
    } else {
      assert cfg.Chunk(s.m.i)[..s.m.copied] == cfg.Chunk(s.m.i);
    }
  }

  lemma CopyGrows(before: Bytes, chunk: Bytes, from: nat, upTo: nat)
    requires from < upTo <= |chunk|
    ensures before + (if from > 0 then chunk[..from] else []) + chunk[from..upTo] == before + chunk[..upTo]
  {
    SliceJoin(chunk, 0, from, upTo);
  }

  /** Files do not count. */
  lemma MergerCounters(cfg: Config, s: State, e: MergerStep)
    requires cfg.Valid() && |s.tasks| == cfg.N() && MergerEnabled(cfg, s, e)
    requires SlotsOk(cfg, s) && CountOk(cfg, s)
    ensures |MergerApply(cfg, s, e).tasks| == cfg.N()
    ensures SlotsOk(cfg, MergerApply(cfg, s, e)) && CountOk(cfg, MergerApply(cfg, s, e))
  {
    PhasesStay(cfg, s, e);
    TotalsStay(cfg, s.tasks, MergerApply(cfg, s, e).tasks);
  }

  lemma PhasesStay(cfg: Config, s: State, e: MergerStep)
    requires cfg.Valid() && |s.tasks| == cfg.N() && MergerEnabled(cfg, s, e)
    ensures var s' := MergerApply(cfg, s, e);
            && SamePhases(s.tasks, s'.tasks) && s'.exited == s.exited && s'.downloaded == s.downloaded
            && s'.feed == s.feed && s'.o.shutdown == s.o.shutdown && s'.o.cancelled == s.o.cancelled
            && (s.o.ret != NotYet ==> s'.o.ret != NotYet)
  {
  }

  predicate SamePhases(tasks: seq<Task>, tasks': seq<Task>) {
    |tasks| == |tasks'| && forall j :: 0 <= j < |tasks| ==> tasks'[j].phase == tasks[j].phase
  }

  lemma TotalsStay(cfg: Config, tasks: seq<Task>, tasks': seq<Task>)
    requires cfg.Valid() && |tasks| <= cfg.N() && SamePhases(tasks, tasks')
    ensures Total(cfg, Occupied, tasks') == Total(cfg, Occupied, tasks)
    ensures Total(cfg, InFlight, tasks') == Total(cfg, InFlight, tasks)
    ensures Total(cfg, Counting, tasks') == Total(cfg, Counting, tasks)
  {
    TotalSame(cfg, Occupied, tasks, tasks');
    TotalSame(cfg, InFlight, tasks, tasks');
    TotalSame(cfg, Counting, tasks, tasks');
  }

  // Any other step.

  lemma ControlStepTasks(cfg: Config, s: State, e: ControlStep, j: nat)
    requires cfg.Valid() && |s.tasks| == cfg.N() && j < cfg.N() && TaskOk(cfg, s, j) && ControlEnabled(cfg, s, e)
    requires ReturnOk(s.m, s.o) && MergerOk(cfg, s.m, s.o)
    ensures TaskOk(cfg, ControlApply(cfg, s, e), j)
  {
  }

  lemma ControlStepRest(cfg: Config, s: State, e: ControlStep)
    requires cfg.Valid() && |s.tasks| == cfg.N() && RestOk(cfg, s) && ControlEnabled(cfg, s, e)
    ensures RestOk(cfg, ControlApply(cfg, s, e))
  {
  }

  lemma ControlStepCounters(cfg: Config, s: State, e: ControlStep)
    requires cfg.Valid() && |s.tasks| == cfg.N() && ControlEnabled(cfg, s, e)
    requires SlotsOk(cfg, s) && CountOk(cfg, s) && DispatcherOk(cfg, s.feed, s.m, s.o)
    ensures SlotsOk(cfg, ControlApply(cfg, s, e)) && CountOk(cfg, ControlApply(cfg, s, e))
  {
  }

  // All together.

  lemma TaskStepKeepsInv(cfg: Config, s: State, t: nat, e: TaskStep)
    requires cfg.Valid() && Inv(cfg, s) && t < cfg.N() && TaskEnabled(cfg, s, t, e)
    ensures Inv(cfg, TaskApply(cfg, s, t, e))
  {
    var s' := TaskApply(cfg, s, t, e);
    forall j | 0 <= j < cfg.N() ensures TaskOk(cfg, s', j) {
      assert TaskOk(cfg, s, j);
      if j == t {
        OwnStartsKept(cfg, s, t, e);
        OwnFileKept(cfg, s, t, e);
        OwnHandOffKept(cfg, s, t, e);
      } else {
        OtherTaskKept(cfg, s, t, e, j);
      }
    }
    assert TaskOk(cfg, s, t);
    TaskStepSlots(cfg, s, t, e);
    TaskStepCount(cfg, s, t, e);
    TaskStepRest(cfg, s, t, e);
    assert s'.m == s.m;
  }

  lemma MergerTasksKept(cfg: Config, s: State, e: MergerStep)
    requires cfg.Valid() && Inv(cfg, s) && MergerEnabled(cfg, s, e)
    ensures |MergerApply(cfg, s, e).tasks| == cfg.N() && TasksOk(cfg, MergerApply(cfg, s, e))
  {
    MergerCounters(cfg, s, e);
    forall j | 0 <= j < cfg.N() ensures TaskOk(cfg, MergerApply(cfg, s, e), j) {
      assert TaskOk(cfg, s, j);
      if e.Check? {
        CheckTasks(cfg, s, j);
      } else if e.Hear? {
        assert TaskOk(cfg, s, e.from);
        HearTasks(cfg, s, e.from, j);
      } else if Removes(e) {
        RemoveTasks(cfg, s, e, j);
      } else if Cleans(e) {
        CleanTasks(cfg, s, e, j);
      } else {
        OtherMergerTasks(cfg, s, e, j);
      }
    }
  }

  lemma MergerStepRest(cfg: Config, s: State, e: MergerStep)
    requires cfg.Valid() && Inv(cfg, s) && MergerEnabled(cfg, s, e)
    ensures |MergerApply(cfg, s, e).tasks| == cfg.N() && RestOk(cfg, MergerApply(cfg, s, e))
  {
    if Taking(e) {
      TakingRest(cfg, s, e);
    } else if Copies(e) {
      assert TaskOk(cfg, s, s.m.i);
      CopyRest(cfg, s, e);
    } else if Removes(e) {
      RemoveRest(cfg, s, e);
    } else if Cleans(e) {
      CleanRest(cfg, s, e);
    } else {
      OtherMergerRest(cfg, s, e);
    }
  }

  lemma MergerStepKeepsInv(cfg: Config, s: State, e: MergerStep)
    requires cfg.Valid() && Inv(cfg, s) && MergerEnabled(cfg, s, e)
    ensures Inv(cfg, MergerApply(cfg, s, e))
  {
    MergerTasksKept(cfg, s, e);
    MergerStepRest(cfg, s, e);
    MergerStepOutput(cfg, s, e);
    MergerCounters(cfg, s, e);
  }

  lemma ControlStepKeepsInv(cfg: Config, s: State, e: ControlStep)
    requires cfg.Valid() && Inv(cfg, s) && ControlEnabled(cfg, s, e)
    ensures Inv(cfg, ControlApply(cfg, s, e))
  {
    var s' := ControlApply(cfg, s, e);
    forall j | 0 <= j < cfg.N() ensures TaskOk(cfg, s', j) {
      assert TaskOk(cfg, s, j);
      ControlStepTasks(cfg, s, e, j);
    }
    ControlStepRest(cfg, s, e);
    ControlStepCounters(cfg, s, e);
    assert s'.m == s.m;
  }

  /** Every event, in every interleaving, keeps the invariant. */
  lemma StepKeepsInv(cfg: Config, s: State, e: Event)
    requires cfg.Valid() && Inv(cfg, s) && Enabled(cfg, s, e)
    ensures Inv(cfg, Apply(cfg, s, e))
  {
    match e
    case OfTask(t, step) => TaskStepKeepsInv(cfg, s, t, step);
    case OfMerger(m) => MergerStepKeepsInv(cfg, s, m);
    case OfControl(c) => ControlStepKeepsInv(cfg, s, c);
  }

  lemma {:induction false} RunKeepsInv(cfg: Config, s: State, events: seq<Event>, s': State)
    requires cfg.Valid() && Inv(cfg, s) && RunFrom(cfg, s, events) == Some(s')
    ensures Inv(cfg, s')
    decreases |events|
  {
    if events != [] {
      StepKeepsInv(cfg, s, events[0]);
      RunKeepsInv(cfg, Apply(cfg, s, events[0]), events[1..], s');
    }
  }

  lemma ReachableInv(cfg: Config, s: State)
    requires cfg.Valid() && Reachable(cfg, s)
    ensures Inv(cfg, s)
  {
    InitInv(cfg);
    var events :| RunFrom(cfg, Init(cfg), events) == Some(s);
    RunKeepsInv(cfg, Init(cfg), events, s);
  }
}
