/** Every run of the downloader is finite, and without a shutdown or a cancelled client it ends with
    Do returning, provided there is something to download. */
module ProtocolLiveness {
  import opened Basics
  import opened Planner
  import opened Protocol
  import opened ProtocolInvariant
  import opened ProtocolSafety

  // ---------- a measure that every event decreases ----------

  /** Bytes of the chunks from n on. */
  function BytesFrom(cfg: Config, n: nat): nat
    requires cfg.Valid() && n <= cfg.N()
    decreases cfg.N() - n
  {
    if n == cfg.N() then 0 else Size(cfg, n) + BytesFrom(cfg, n + 1)
  }

  function MergerStage(m: Merger): nat {
    match m
    case Opening => 7
    case AtTop => 6
    case Awaiting => 5
    case Popped => 4
    case Copying => 3
    case Removing => 2
    case Cleaning => 1
    case MergeErr => 0
    case Merged => 0
    case Failed => 0
    case Aborted => 0
  }

  function MergerRank(cfg: Config, m: Merge): int
    requires cfg.Valid() && m.merged <= cfg.N()
  {
    BytesFrom(cfg, m.merged) - m.copied + 8 * (cfg.N() - m.i) + MergerStage(m.at)
  }

  function FeedRank(d: Dispatcher): nat {
    match d case Planning => 2 case Sending => 1 case PlanErr => 1 case Stopped => 0
  }

  function FlagsRank(o: Outcome): nat {
    (if o.wgDone then 0 else 1) + (if o.ret == NotYet then 1 else 0)
    + (if o.shutdown then 0 else 1) + (if o.cancelled then 0 else 1)
  }

  function Rank(cfg: Config, s: State): int
    requires cfg.Valid() && |s.tasks| == cfg.N() && s.m.merged <= cfg.N()
  {
    Total(cfg, Budget, s.tasks) + MergerRank(cfg, s.m) + FeedRank(s.feed.disp) + FlagsRank(s.o)
    + (cfg.concurrency - s.exited) + |s.notify|
  }

  lemma BytesFromCovers(cfg: Config, m: Merge)
    requires cfg.Valid() && m.merged <= cfg.N()
    ensures m.merged < cfg.N() ==> BytesFrom(cfg, m.merged) >= Size(cfg, m.merged)
  {
  }

  lemma RankIsNatural(cfg: Config, s: State)
    requires cfg.Valid() && Inv(cfg, s)
    ensures Rank(cfg, s) >= 0
  {
    BytesFromCovers(cfg, s.m);
  }

  lemma OneAttemptLess(attempts: nat, w: nat)
    requires attempts > 0
    ensures (attempts - 1) * w == attempts * w - w
  {
  }

  /** A step on a chunk uses up part of its budget; starting a notifier costs one unit of it. */
  lemma TaskBudgetDrops(cfg: Config, s: State, t: nat, e: TaskStep)
    requires cfg.Valid() && |s.tasks| == cfg.N() && t < cfg.N() && TaskOk(cfg, s, t) && TaskEnabled(cfg, s, t, e)
    ensures BudgetOf(cfg, t, TaskAfter(cfg, s, t, e)) + (if e.Spawn? then 1 else 0) < BudgetOf(cfg, t, s.tasks[t])
  {
    var task := s.tasks[t];
    if e.Decide? && task.retry < cfg.maxRetry {
      OneAttemptLess(cfg.maxRetry - task.retry, Size(cfg, t) + 10);
    }
  }

  lemma TaskStepDecreases(cfg: Config, s: State, t: nat, e: TaskStep)
    requires cfg.Valid() && Inv(cfg, s) && t < cfg.N() && TaskEnabled(cfg, s, t, e)
    ensures Rank(cfg, TaskApply(cfg, s, t, e)) < Rank(cfg, s)
  {
    assert TaskOk(cfg, s, t);
    TaskBudgetDrops(cfg, s, t, e);
    TotalUpdate(cfg, Budget, s.tasks, t, TaskAfter(cfg, s, t, e));
    var s' := TaskApply(cfg, s, t, e);
    assert |s'.notify| <= |s.notify| + (if e.Spawn? then 1 else 0);
  }

  lemma CopyDecreases(cfg: Config, s: State, e: MergerStep)
    requires cfg.Valid() && |s.tasks| == cfg.N() && MergerOk(cfg, s.m, s.o) && MergerEnabled(cfg, s, e) && Copies(e)
    requires TaskOk(cfg, s, s.m.i)
    ensures MergeAfter(cfg, s, e).merged <= cfg.N()
    ensures MergerRank(cfg, MergeAfter(cfg, s, e)) < MergerRank(cfg, s.m)
  {
    assert s.tasks[s.m.i].file == Some(cfg.Chunk(s.m.i));
  }

  lemma OtherMergeDecreases(cfg: Config, s: State, e: MergerStep)
    requires cfg.Valid() && |s.tasks| == cfg.N() && MergerOk(cfg, s.m, s.o) && MergerEnabled(cfg, s, e) && !Copies(e)
    ensures MergeAfter(cfg, s, e).merged <= cfg.N()
    ensures MergerRank(cfg, MergeAfter(cfg, s, e))
            < MergerRank(cfg, s.m) + (if e.Hear? || e.TakeMergeErr? then 1 else 0)
  {
    assert MergeAfter(cfg, s, e).merged == s.m.merged && MergeAfter(cfg, s, e).copied == s.m.copied;
  }

  lemma MergeAfterDecreases(cfg: Config, s: State, e: MergerStep)
    requires cfg.Valid() && Inv(cfg, s) && MergerEnabled(cfg, s, e)
    ensures MergeAfter(cfg, s, e).merged <= cfg.N()
    ensures MergerRank(cfg, MergeAfter(cfg, s, e))
            < MergerRank(cfg, s.m) + (if e.Hear? || e.TakeMergeErr? then 1 else 0)
  {
    if Copies(e) {
      assert TaskOk(cfg, s, s.m.i);
      CopyDecreases(cfg, s, e);
    } else {
      OtherMergeDecreases(cfg, s, e);
    }
  }

  lemma MergerStepDecreases(cfg: Config, s: State, e: MergerStep)
    requires cfg.Valid() && Inv(cfg, s) && MergerEnabled(cfg, s, e)
    ensures MergeAfter(cfg, s, e).merged <= cfg.N()
    ensures |MergerApply(cfg, s, e).tasks| == cfg.N() && Rank(cfg, MergerApply(cfg, s, e)) < Rank(cfg, s)
  {
    MergeAfterDecreases(cfg, s, e);
    MergerLeavesBudget(cfg, s, e);
    MergerFrame(cfg, s, e);
  }

  lemma MergerFrame(cfg: Config, s: State, e: MergerStep)
    requires cfg.Valid() && |s.tasks| == cfg.N() && MergerEnabled(cfg, s, e)
    ensures var s' := MergerApply(cfg, s, e);
            && s'.m == MergeAfter(cfg, s, e) && s'.feed == s.feed && s'.exited == s.exited
            && |s'.notify| + (if e.Hear? then 1 else 0) == |s.notify|
            && FlagsRank(s'.o) + (if e.TakeMergeErr? then 1 else 0) == FlagsRank(s.o)
  {
  }

  lemma BudgetWithoutFile(cfg: Config, i: nat, t: Task)
    requires cfg.Valid() && i < cfg.N()
    ensures !t.phase.Running? ==> Weight(cfg, Budget, i, t.(file := None)) == Weight(cfg, Budget, i, t)
  {
  }

  /** The merger deletes only files of chunks that are done. */
  lemma MergerLeavesBudget(cfg: Config, s: State, e: MergerStep)
    requires cfg.Valid() && Inv(cfg, s) && MergerEnabled(cfg, s, e)
    ensures |MergerApply(cfg, s, e).tasks| == cfg.N()
    ensures Total(cfg, Budget, MergerApply(cfg, s, e).tasks) == Total(cfg, Budget, s.tasks)
  {
    var tasks' := MergerApply(cfg, s, e).tasks;
    forall j | 0 <= j < cfg.N() ensures Weight(cfg, Budget, j, tasks'[j]) == Weight(cfg, Budget, j, s.tasks[j]) {
      assert TaskOk(cfg, s, j);
      BudgetWithoutFile(cfg, j, s.tasks[j]);
      assert tasks'[j] == s.tasks[j] || (tasks'[j] == s.tasks[j].(file := None) && j < s.m.popped);
    }
    TotalSame(cfg, Budget, s.tasks, tasks');
  }

  lemma ControlStepDecreases(cfg: Config, s: State, e: ControlStep)
    requires cfg.Valid() && Inv(cfg, s) && ControlEnabled(cfg, s, e)
    ensures Rank(cfg, ControlApply(cfg, s, e)) < Rank(cfg, s)
  {
  }

  lemma StepDecreases(cfg: Config, s: State, e: Event)
    requires cfg.Valid() && Inv(cfg, s) && Enabled(cfg, s, e)
    ensures |Apply(cfg, s, e).tasks| == cfg.N() && Apply(cfg, s, e).m.merged <= cfg.N()
    ensures Rank(cfg, Apply(cfg, s, e)) < Rank(cfg, s)
  {
    match e
    case OfTask(t, step) => TaskStepDecreases(cfg, s, t, step);
    case OfMerger(m) => MergerStepDecreases(cfg, s, m);
    case OfControl(c) => ControlStepDecreases(cfg, s, c);
  }

  lemma {:induction false} RunSpendsRank(cfg: Config, s: State, events: seq<Event>, s': State)
    requires cfg.Valid() && Inv(cfg, s) && RunFrom(cfg, s, events) == Some(s')
    ensures Inv(cfg, s') && |events| + Rank(cfg, s') <= Rank(cfg, s)
    decreases |events|
  {
    if events != [] {
      StepDecreases(cfg, s, events[0]);
      StepKeepsInv(cfg, s, events[0]);
      RunSpendsRank(cfg, Apply(cfg, s, events[0]), events[1..], s');
    }
  }

  /** No run is longer than the measure of its first state: no livelock, not even after a shutdown
      or a cancelled client. */
  lemma RunsAreBounded(cfg: Config, events: seq<Event>)
    requires cfg.Valid() && RunFrom(cfg, Init(cfg), events).Some?
    ensures |events| <= Rank(cfg, Init(cfg))
  {
    InitInv(cfg);
    var s' := RunFrom(cfg, Init(cfg), events).value;
    RunSpendsRank(cfg, Init(cfg), events, s');
    RankIsNatural(cfg, s');
  }

  // ---------- no deadlock ----------

  /** The conditions under which Do is waited for. */
  predicate Undisturbed(s: State) { !s.o.shutdown && !s.o.cancelled && s.o.ret == NotYet }

  lemma BusyChunkMoves(cfg: Config, s: State, t: nat) returns (e: TaskStep)
    requires cfg.Valid() && |s.tasks| == cfg.N() && Undisturbed(s) && t < cfg.N() && InHandle(s.tasks[t].phase)
    ensures TaskEnabled(cfg, s, t, e)
  {
    match s.tasks[t].phase
    case Running => e := Succeed;
    case Counted => e := PutMap;
    case Mapped => e := Spawn;
    case OpenErr => e := TakeOpenErr;
  }

  /** A chunk that a worker holds gets the semaphore, or another chunk that has it moves. */
  lemma HeldChunkMoves(cfg: Config, s: State, t: nat) returns (u: nat, e: TaskStep)
    requires cfg.Valid() && |s.tasks| == cfg.N() && Undisturbed(s) && cfg.maxThread > 0
    requires t < cfg.N() && HoldsWorker(s.tasks[t].phase)
    ensures u < cfg.N() && TaskEnabled(cfg, s, u, e)
  {
    if InHandle(s.tasks[t].phase) {
      u := t;
      e := BusyChunkMoves(cfg, s, t);
    } else if FreeSlot(cfg, s) {
      u, e := t, Acquire;
    } else {
      u := TotalHasOne(cfg, InFlight, s.tasks);
      e := BusyChunkMoves(cfg, s, u);
    }
  }

  /** A worker is idle, or some chunk moves. */
  lemma WorkerComesFree(cfg: Config, s: State) returns (u: nat, e: TaskStep)
    requires cfg.Valid() && Inv(cfg, s) && Undisturbed(s) && cfg.maxThread > 0 && cfg.concurrency > 0
    requires !IdleWorker(cfg, s)
    ensures u < cfg.N() && TaskEnabled(cfg, s, u, e)
  {
    var t := TotalHasOne(cfg, Occupied, s.tasks);
    u, e := HeldChunkMoves(cfg, s, t);
  }

  /** The chunk the merger waits for can move, or a chunk in its way can. */
  lemma AwaitedChunkMoves(cfg: Config, s: State) returns (e: Event)
    requires cfg.Valid() && Inv(cfg, s) && Undisturbed(s) && cfg.maxThread > 0 && cfg.concurrency > 0
    requires s.m.at == Awaiting && s.m.i < cfg.N() && s.feed.disp == Sending
    ensures !Outside(e) && CanStep(cfg, s, e)
  {
    var i := s.m.i;
    assert TaskOk(cfg, s, i);
    var p := s.tasks[i].phase;
    if p.Finished? {
      e := OfMerger(Hear(i));
    } else if HoldsWorker(p) {
      var u, step := HeldChunkMoves(cfg, s, i);
      e := OfTask(u, step);
    } else if p.Deciding? {
      e := OfTask(i, Decide);
    } else if p.RetryErr? {
      e := OfTask(i, TakeRetryErr);
    } else if !IdleWorker(cfg, s) {
      var u, step := WorkerComesFree(cfg, s);
      e := OfTask(u, step);
    } else if p.Resending? {
      e := OfTask(i, Resend);
    } else {
      e := OfTask(s.feed.next, Dispatch);
    }
  }

  /** Deadlock freedom: as long as Do has not returned, and nobody shut down or cancelled, some
      goroutine can take a step that is neither. */
  lemma SomeoneCanStep(cfg: Config, s: State) returns (e: Event)
    requires cfg.Valid() && Reachable(cfg, s) && Undisturbed(s)
    requires cfg.N() > 0 && cfg.maxThread > 0 && cfg.concurrency > 0
    ensures !Outside(e) && CanStep(cfg, s, e)
  {
    ReachableInv(cfg, s);
    if s.m.i < cfg.N() { assert TaskOk(cfg, s, s.m.i); }
    if s.feed.disp == Planning {
      e := OfControl(Plan);
    } else if s.feed.disp == PlanErr {
      e := OfControl(TakePlanErr);
    } else if MergerDone(s.m.at) {
      e := DoMoves(cfg, s);
    } else if s.m.at == Awaiting {
      e := AwaitedChunkMoves(cfg, s);
    } else {
      var m := MergerMoves(cfg, s);
      e := OfMerger(m);
    }
  }

  /** Do gets its answer, or a chunk that keeps the wait group up moves. */
  lemma DoMoves(cfg: Config, s: State) returns (e: Event)
    requires cfg.Valid() && |s.tasks| == cfg.N() && Undisturbed(s) && MergerDone(s.m.at)
    ensures !Outside(e) && CanStep(cfg, s, e)
  {
    if s.o.wgDone {
      e := OfControl(ReturnNil);
    } else if Total(cfg, InFlight, s.tasks) == 0 {
      e := OfControl(CloseWg);
    } else {
      var u := TotalHasOne(cfg, InFlight, s.tasks);
      var step := BusyChunkMoves(cfg, s, u);
      e := OfTask(u, step);
    }
  }

  /** A merger that is at work goes on. */
  lemma MergerMoves(cfg: Config, s: State) returns (m: MergerStep)
    requires cfg.Valid() && |s.tasks| == cfg.N() && Undisturbed(s) && MergerOk(cfg, s.m, s.o)
    requires !MergerDone(s.m.at) && s.m.at != Awaiting && (s.m.i < cfg.N() ==> TaskOk(cfg, s, s.m.i))
    ensures MergerEnabled(cfg, s, m)
  {
    m := if s.m.at == Opening then MergerOpen
         else if s.m.at == AtTop then Check
         else if s.m.at == Popped then OpenTemp
         else if s.m.at == Removing then Remove
         else if s.m.at == Cleaning then Clean
         else if s.m.at == MergeErr then TakeMergeErr
         else if s.m.copied == |s.tasks[s.m.i].file.value| then CopyEnd
         else CopySome(|s.tasks[s.m.i].file.value|);
  }

  /** The end of every complete run that nobody disturbs: Do has returned, and unless a planning or file
      operation failed, or all attempts at some chunk did, the output is the remote file. */
  lemma CompleteRunsSucceed(cfg: Config, from: nat, s: State)
    requires cfg.Valid() && cfg.N() > 0 && cfg.maxThread > 0 && cfg.concurrency > 0
    requires from <= |cfg.remote| && cfg.base == cfg.remote[..from] && Tiles(cfg.plan, from, |cfg.remote|)
    requires Reachable(cfg, s) && !s.o.shutdown && !s.o.cancelled && Stuck(cfg, s)
    ensures s.o.ret != NotYet && |s.tasks| == cfg.N()
    ensures !s.o.broken && (forall j :: 0 <= j < cfg.N() ==> s.tasks[j].phase != Errored) ==>
              s.o.ret == Nil && s.m.output == cfg.remote
  {
    if s.o.ret == NotYet {
      var e := SomeoneCanStep(cfg, s);
      assert false;
    }
    ReachableInv(cfg, s);
    if s.o.ret == Nil {
      NilMeansComplete(cfg, from, s);
    } else {
      ErrorHasACause(cfg, s);
    }
  }

  // ---------- where it does get stuck ----------

  /** Nothing is left to happen but what the surroundings may do. */
  ghost predicate Stuck(cfg: Config, s: State)
    requires cfg.Valid()
  {
    forall e :: CanStep(cfg, s, e) ==> Outside(e)
  }

  lemma ReachableStep(cfg: Config, s: State, e: Event)
    requires cfg.Valid() && Reachable(cfg, s) && CanStep(cfg, s, e)
    ensures Reachable(cfg, Apply(cfg, s, e))
  {
    var events :| RunFrom(cfg, Init(cfg), events) == Some(s);
    RunOneMore(cfg, Init(cfg), events, s, e);
  }

  lemma InitReachable(cfg: Config)
    requires cfg.Valid()
    ensures Reachable(cfg, Init(cfg))
  {
    assert RunFrom(cfg, Init(cfg), []) == Some(Init(cfg));
  }

  /** The plan is handed over and the merger sits waiting for chunk 0. */
  lemma ReachWaitingForFirst(cfg: Config) returns (s: State)
    requires cfg.Valid()
    ensures Reachable(cfg, s) && |s.tasks| == cfg.N() && Undisturbed(s)
    ensures s.m == Merge(Awaiting, 0, 0, 0, 0, 0, cfg.base) && s.feed == Feed(Sending, 0, true, cfg.N() - 1)
    ensures s.exited == 0
    ensures s.taskMap == {} && s.notify == {} && s.o == Init(cfg).o
    ensures s.tasks == Init(cfg).tasks
  {
    InitReachable(cfg);
    s := Init(cfg);
    ReachableStep(cfg, s, OfControl(Plan));
    s := ControlApply(cfg, s, Plan);
    ReachableStep(cfg, s, OfMerger(MergerOpen));
    s := MergerApply(cfg, s, MergerOpen);
    ReachableStep(cfg, s, OfMerger(Check));
    s := MergerApply(cfg, s, Check);
  }

  /** With an empty plan a run can reach a state in which Do waits for ever. */
  lemma EmptyPlanSticks(cfg: Config) returns (s: State)
    requires cfg.Valid() && cfg.N() == 0
    ensures Reachable(cfg, s) && Undisturbed(s) && Stuck(cfg, s)
  {
    s := ReachWaitingForFirst(cfg);
  }

  /** Without a shutdown Do never returns nil on an empty plan. */
  lemma EmptyPlanNeverSucceeds(cfg: Config, s: State)
    requires cfg.Valid() && cfg.N() == 0 && Reachable(cfg, s) && !s.o.shutdown
    ensures s.o.ret != Nil
  {
    ReachableInv(cfg, s);
  }

  /** Undisturbed runs can get stuck exactly when the plan is empty. */
  lemma DeadlockFreeIff(cfg: Config)
    requires cfg.Valid() && cfg.maxThread > 0 && cfg.concurrency > 0
    ensures (forall s :: Reachable(cfg, s) && Undisturbed(s) ==> !Stuck(cfg, s)) <==> cfg.N() > 0
  {
    if cfg.N() == 0 {
      var s := EmptyPlanSticks(cfg);
      assert Reachable(cfg, s) && Undisturbed(s) && Stuck(cfg, s);
    } else {
      forall s | Reachable(cfg, s) && Undisturbed(s) ensures !Stuck(cfg, s) {
        var e := SomeoneCanStep(cfg, s);
        assert CanStep(cfg, s, e);
      }
    }
  }

  /** A shutdown makes Do return nil with nothing merged, whatever was planned. */
  lemma ShutdownReturnsNilEarly(cfg: Config) returns (s: State)
    requires cfg.Valid()
    ensures Reachable(cfg, s) && s.o.ret == Nil && s.o.shutdown && s.m.output == cfg.base
  {
    InitReachable(cfg);
    InitInv(cfg);
    s := Init(cfg);
    FreshTotals(cfg, InFlight, s.tasks);
    ReachableStep(cfg, s, OfControl(Shutdown));
    s := ControlApply(cfg, s, Shutdown);
    ReachableStep(cfg, s, OfMerger(MergerOpen));
    s := MergerApply(cfg, s, MergerOpen);
    ReachableStep(cfg, s, OfMerger(Check));
    s := MergerApply(cfg, s, Check);
    ReachableStep(cfg, s, OfControl(CloseWg));
    s := ControlApply(cfg, s, CloseWg);
    ReachableStep(cfg, s, OfControl(ReturnNil));
    s := ControlApply(cfg, s, ReturnNil);
  }

  lemma {:induction false} AllWorkersLeave(cfg: Config, s: State, n: nat) returns (s': State)
    requires cfg.Valid() && Reachable(cfg, s) && |s.tasks| == cfg.N()
    requires s.o.cancelled || s.o.shutdown || s.o.ret != NotYet
    requires Total(cfg, Occupied, s.tasks) == 0 && s.exited + n == cfg.concurrency
    ensures Reachable(cfg, s') && s' == s.(exited := cfg.concurrency)
    decreases n
  {
    if n == 0 {
      s' := s;
    } else {
      ReachableStep(cfg, s, OfControl(WorkerExit));
      s' := AllWorkersLeave(cfg, ControlApply(cfg, s, WorkerExit), n - 1);
    }
  }

  /** All waits at once: no idle worker for the dispatcher, no notification for the merger, and the wait
      group is up. */
  lemma AllWait(cfg: Config, s: State)
    requires cfg.Valid() && |s.tasks| == cfg.N() && s.tasks == Init(cfg).tasks
    requires s.m.at == Awaiting && s.feed.disp == Sending && s.exited == cfg.concurrency && s.notify == {}
    requires !s.o.shutdown && s.o.ret == NotYet && !s.o.wgDone
    ensures Stuck(cfg, s)
  {
  }

  /** Cancelling the client sends the workers home and leaves the dispatcher, the merger and Do
      waiting for ever. */
  lemma CancelSticks(cfg: Config) returns (s: State)
    requires cfg.Valid()
    ensures Reachable(cfg, s) && s.o.cancelled && !s.o.shutdown && s.o.ret == NotYet && Stuck(cfg, s)
  {
    s := ReachWaitingForFirst(cfg);
    FreshTotals(cfg, Occupied, s.tasks);
    ReachableStep(cfg, s, OfControl(Cancel));
    s := ControlApply(cfg, s, Cancel);
    s := AllWorkersLeave(cfg, s, cfg.concurrency);
    AllWait(cfg, s);
  }

  /** A shutdown sends everyone home before Do returns: the dispatcher, the waiting merger and the workers. */
  lemma ShutdownEndsAll(cfg: Config) returns (s: State)
    requires cfg.Valid() && cfg.N() > 0
    ensures Reachable(cfg, s) && s.o.shutdown && s.o.ret == NotYet && s.feed.disp == Stopped
    ensures s.m == Merge(Aborted, 0, 0, 0, 0, 0, cfg.base) && s.exited == cfg.concurrency
  {
    s := ReachWaitingForFirst(cfg);
    FreshTotals(cfg, Occupied, s.tasks);
    ReachableStep(cfg, s, OfControl(Shutdown));
    s := ControlApply(cfg, s, Shutdown);
    ReachableStep(cfg, s, OfControl(DispatcherExit));
    s := ControlApply(cfg, s, DispatcherExit);
    s := AllWorkersLeave(cfg, s, cfg.concurrency);
    ReachableStep(cfg, s, OfMerger(MergerAbort));
    s := MergerApply(cfg, s, MergerAbort);
  }

  /** The merger waits for chunk 0, whose task has got as far as this. */
  predicate FirstAt(cfg: Config, s: State, p: Phase)
    requires cfg.Valid() && cfg.N() > 0
  {
    && |s.tasks| == cfg.N() && s.feed.planned && s.o == Init(cfg).o && s.exited == 0
    && s.m == Merge(Awaiting, 0, 0, 0, 0, 0, cfg.base)
    && s.tasks[0].phase == p
    && forall j :: 0 < j < cfg.N() ==> s.tasks[j] == InitTask(cfg, j)
  }

  lemma ReachFirstHeld(cfg: Config) returns (s: State)
    requires cfg.Valid() && cfg.N() > 0 && cfg.concurrency > 0 && cfg.maxThread > 0
    ensures Reachable(cfg, s) && FirstAt(cfg, s, Held) && FreeSlot(cfg, s)
    ensures s.tasks[0] == InitTask(cfg, 0).(phase := Held) && s.taskMap == s.notify == {}
  {
    s := ReachWaitingForFirst(cfg);
    FreshTotals(cfg, Occupied, s.tasks);
    FreshTotals(cfg, InFlight, s.tasks);
    TotalUpdate(cfg, InFlight, s.tasks, 0, s.tasks[0].(phase := Held));
    s := StepOf(cfg, s, Dispatch);
  }

  /** Chunk 0 has been fetched; its file is whole and its notifier is up. */
  lemma ReachFirstFetched(cfg: Config) returns (s: State)
    requires cfg.Valid() && cfg.N() > 0 && !cfg.plan[0].completed && cfg.concurrency > 0 && cfg.maxThread > 0
    ensures Reachable(cfg, s) && FirstAt(cfg, s, Finished) && s.notify == s.taskMap == {0}
    ensures s.tasks[0].file == Some(cfg.Chunk(0))
  {
    s := ReachFirstHeld(cfg);
    s := StepOf(cfg, s, Acquire);
    assert FirstAt(cfg, s, Running);
    s := StepOf(cfg, s, Succeed);
    assert FirstAt(cfg, s, Counted);
    s := StepOf(cfg, s, PutMap);
    assert FirstAt(cfg, s, Mapped);
    s := StepOf(cfg, s, Spawn);
  }

  lemma StepOf(cfg: Config, s: State, e: TaskStep) returns (s': State)
    requires cfg.Valid() && |s.tasks| == cfg.N() > 0 && Reachable(cfg, s) && TaskEnabled(cfg, s, 0, e)
    ensures Reachable(cfg, s') && s' == TaskApply(cfg, s, 0, e)
  {
    ReachableStep(cfg, s, OfTask(0, e));
    s' := TaskApply(cfg, s, 0, e);
  }

  /** One byte of chunk 0 is in the output, and its file is still there. */
  lemma ReachMidCopy(cfg: Config) returns (s: State)
    requires cfg.Valid() && cfg.N() > 0 && !cfg.plan[0].completed && cfg.concurrency > 0 && cfg.maxThread > 0
    ensures Reachable(cfg, s) && |s.tasks| == cfg.N() && s.feed.planned
    ensures s.m == Merge(Copying, 0, 1, 0, 0, 1, cfg.base + cfg.Chunk(0)[..1])
    ensures s.tasks[0].file == Some(cfg.Chunk(0)) && s.taskMap == {} && s.notify == {}
    ensures forall j :: 0 < j < cfg.N() ==> s.tasks[j] == InitTask(cfg, j)
  {
    s := ReachFirstFetched(cfg);
    ReachableStep(cfg, s, OfMerger(Hear(0)));
    s := MergerApply(cfg, s, Hear(0));
    ReachableStep(cfg, s, OfMerger(OpenTemp));
    s := MergerApply(cfg, s, OpenTemp);
    ReachableStep(cfg, s, OfMerger(CopySome(1)));
    s := MergerApply(cfg, s, CopySome(1));
  }

  // ---------- what is left when Do has returned ----------

  lemma CannotStep(cfg: Config, s: State, e: Event)
    requires cfg.Valid() && Stuck(cfg, s) && !Outside(e)
    ensures !CanStep(cfg, s, e)
  {
  }

  /** When nothing more happens after Do has returned, the merger has ended, or waits to report an error nobody
      takes; the dispatcher has ended, or waits to report one; no notifier is left; and no worker is idle. */
  lemma AfterReturn(cfg: Config, s: State)
    requires cfg.Valid() && Reachable(cfg, s) && Stuck(cfg, s) && s.o.ret != NotYet
    ensures |s.tasks| == cfg.N() && s.notify == {}
    ensures MergerDone(s.m.at) || s.m.at == MergeErr
    ensures s.feed.disp in {Stopped, PlanErr} || (s.feed.disp == Sending && s.feed.next == cfg.N())
    ensures Total(cfg, Occupied, s.tasks) + s.exited == cfg.concurrency
    ensures forall j :: 0 <= j < cfg.N() ==> AtRest(cfg, s, j)
  {
    ReachableInv(cfg, s);
    CannotStep(cfg, s, OfControl(WorkerExit));
    DispatcherEnds(cfg, s);
    MergerEnds(cfg, s);
    forall j | j in s.notify ensures false { CannotStep(cfg, s, OfControl(NotifierExit(j))); }
    forall j | 0 <= j < cfg.N() ensures AtRest(cfg, s, j) { ChunkEnds(cfg, s, j); }
  }

  /** The chunk was never dispatched, is done, failed or was given up, or a goroutine is stuck with it: with an
      error nobody takes, without a worker to send it to, or behind workers that hold every slot so. */
  predicate AtRest(cfg: Config, s: State, j: nat)
    requires cfg.Valid() && |s.tasks| == cfg.N() && j < cfg.N()
  {
    var p := s.tasks[j].phase;
    || p in {Waiting, Finished, Errored, Dropped, OpenErr, RetryErr, Resending}
    || (p == Held && Total(cfg, InFlight, s.tasks) == cfg.maxThread)
  }

  /** After a shutdown Do always returns in the end, even with an empty plan. */
  lemma AfterShutdown(cfg: Config, s: State)
    requires cfg.Valid() && Reachable(cfg, s) && Stuck(cfg, s) && s.o.shutdown
    ensures s.o.ret != NotYet
  {
    ReachableInv(cfg, s);
    if s.o.ret == NotYet {
      MergerEnds(cfg, s);
      CannotStep(cfg, s, OfMerger(TakeMergeErr));
      CannotStep(cfg, s, OfControl(CloseWg));
      CannotStep(cfg, s, OfControl(ReturnNil));
      NobodyInHandle(cfg, s);
    }
  }

  lemma NobodyInHandle(cfg: Config, s: State)
    requires cfg.Valid() && Inv(cfg, s) && Stuck(cfg, s) && s.o.ret == NotYet
    ensures Total(cfg, InFlight, s.tasks) == 0
  {
    if Total(cfg, InFlight, s.tasks) > 0 {
      var t := TotalHasOne(cfg, InFlight, s.tasks);
      ChunkEnds(cfg, s, t);
      CannotStep(cfg, s, OfTask(t, TakeOpenErr));
    }
  }

  lemma DispatcherEnds(cfg: Config, s: State)
    requires cfg.Valid() && Inv(cfg, s) && Stuck(cfg, s) && s.o.ret != NotYet
    ensures s.feed.disp in {Stopped, PlanErr} || (s.feed.disp == Sending && s.feed.next == cfg.N())
  {
    CannotStep(cfg, s, OfControl(Plan));
    CannotStep(cfg, s, OfControl(DispatcherExit));
  }

  lemma MergerEnds(cfg: Config, s: State)
    requires cfg.Valid() && Inv(cfg, s) && Stuck(cfg, s) && (s.o.ret != NotYet || s.o.shutdown)
    ensures MergerDone(s.m.at) || s.m.at == MergeErr
  {
    CannotStep(cfg, s, OfMerger(MergerAbort));
    if !MergerDone(s.m.at) && s.m.at != MergeErr && s.m.at != Awaiting {
      if s.m.i < cfg.N() { assert TaskOk(cfg, s, s.m.i); }
      var m := WorkingMergerMoves(cfg, s);
      CannotStep(cfg, s, OfMerger(m));
    }
  }

  lemma WorkingMergerMoves(cfg: Config, s: State) returns (m: MergerStep)
    requires cfg.Valid() && |s.tasks| == cfg.N() && MergerOk(cfg, s.m, s.o)
    requires !MergerDone(s.m.at) && s.m.at != MergeErr && s.m.at != Awaiting
    requires s.m.i < cfg.N() ==> TaskOk(cfg, s, s.m.i)
    ensures MergerEnabled(cfg, s, m)
  {
    m := if s.m.at == Opening then MergerOpen
         else if s.m.at == AtTop then Check
         else if s.m.at == Popped then OpenTemp
         else if s.m.at == Removing then Remove
         else if s.m.at == Cleaning then Clean
         else if s.m.copied == |s.tasks[s.m.i].file.value| then CopyEnd
         else CopySome(|s.tasks[s.m.i].file.value|);
  }

  lemma ChunkEnds(cfg: Config, s: State, j: nat)
    requires cfg.Valid() && Inv(cfg, s) && Stuck(cfg, s) && j < cfg.N()
    ensures AtRest(cfg, s, j)
  {
    var p := s.tasks[j].phase;
    if p == Held { CannotStep(cfg, s, OfTask(j, Acquire)); }
    if p == Running { CannotStep(cfg, s, OfTask(j, Succeed)); }
    if p == Counted { CannotStep(cfg, s, OfTask(j, PutMap)); }
    if p == Mapped { CannotStep(cfg, s, OfTask(j, Spawn)); }
    if p == Deciding { CannotStep(cfg, s, OfTask(j, Decide)); }
  }

  lemma {:induction false} NobodyBusy(cfg: Config, tasks: seq<Task>)
    requires cfg.Valid() && |tasks| <= cfg.N()
    requires forall j :: 0 <= j < |tasks| ==> !HoldsWorker(tasks[j].phase)
    ensures Total(cfg, Occupied, tasks) == 0 && Total(cfg, InFlight, tasks) == 0
  {
    if tasks != [] { NobodyBusy(cfg, tasks[..|tasks| - 1]); }
  }

  /** Do takes one error only: whoever has another to report waits for ever. */
  lemma SecondErrorStays(cfg: Config) returns (s: State)
    requires cfg.Valid()
    ensures Reachable(cfg, s) && Stuck(cfg, s) && s.o.ret == Err && s.m.at == MergeErr
  {
    s := TwoErrors(cfg);
    FreshTotals(cfg, Occupied, s.tasks);
    s := AllWorkersLeave(cfg, s, cfg.concurrency);
    OneErrorTaken(cfg, s);
  }

  lemma TwoErrors(cfg: Config) returns (s: State)
    requires cfg.Valid()
    ensures Reachable(cfg, s) && s.tasks == Init(cfg).tasks && s.notify == {} && s.exited == 0
    ensures s.o.ret == Err && s.m.at == MergeErr && s.feed.disp == Stopped && !s.o.wgDone
  {
    InitReachable(cfg);
    s := Init(cfg);
    ReachableStep(cfg, s, OfMerger(MergerOpenFail));
    s := MergerApply(cfg, s, MergerOpenFail);
    ReachableStep(cfg, s, OfControl(PlanFail));
    s := ControlApply(cfg, s, PlanFail);
    ReachableStep(cfg, s, OfControl(TakePlanErr));
    s := ControlApply(cfg, s, TakePlanErr);
  }

  lemma OneErrorTaken(cfg: Config, s: State)
    requires cfg.Valid() && s.tasks == Init(cfg).tasks && s.notify == {} && s.exited == cfg.concurrency
    requires s.o.ret == Err && s.m.at == MergeErr && s.feed.disp == Stopped
    ensures Stuck(cfg, s)
  {
  }

  /** After a nil without a shutdown nothing is left running: no goroutine is stuck. */
  lemma NothingLeftAfterSuccess(cfg: Config, s: State)
    requires cfg.Valid() && Reachable(cfg, s) && Stuck(cfg, s) && s.o.ret == Nil && !s.o.shutdown
    ensures s.m.at == Merged && s.notify == {} && s.exited == cfg.concurrency
    ensures s.feed.next == cfg.N()
    ensures |s.tasks| == cfg.N() && forall j :: 0 <= j < cfg.N() ==> s.tasks[j].phase == Finished
  {
    ReachableInv(cfg, s);
    assert s.feed.next < cfg.N() ==> TaskOk(cfg, s, s.feed.next);
    AfterReturn(cfg, s);
    NilMeansAllMerged(cfg, s);
    forall j | 0 <= j < cfg.N() ensures s.tasks[j].phase == Finished {
      assert AtRest(cfg, s, j) && TaskOk(cfg, s, j);
    }
    NobodyBusy(cfg, s.tasks);
  }
}
