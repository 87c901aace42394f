/** One run of the chunk downloader as a state machine: the dispatcher, the workers with their
    semaphore, the retry and notification goroutines, the in-order merger, and Do itself. Every
    event is one step of one goroutine, or of the surroundings (a failed request, a failed file
    operation, a shutdown, a cancelled client context). */
module Protocol {
  import opened Basics
  import opened Planner

  datatype Config = Config(
    plan: seq<Range>,    // what CalRange answers
    remote: Bytes,       // the file on the server
    base: Bytes,         // the output when the run starts
    concurrency: nat, maxThread: nat, maxRetry: nat)
  {
    ghost predicate Valid() {
      forall i :: 0 <= i < |plan| ==> 0 <= plan[i].start <= plan[i].end < |remote|
    }

    function N(): nat { |plan| }

    /** The server answers a range request with exactly the requested bytes. */
    function Chunk(i: nat): Bytes
      requires Valid() && i < N()
    {
      remote[plan[i].start..plan[i].end + 1]
    }

    /** What the output must hold after n chunks. */
    function Assembled(n: nat): Bytes
      requires Valid() && n <= N()
    {
      if n == 0 then base else Assembled(n - 1) + Chunk(n - 1)
    }
  }

  // ---------- state ----------

  datatype Phase =
    | Waiting     // not dispatched yet
    | Held        // a worker has it and wants the semaphore
    | Running     // request in flight
    | Counted     // request done and counted, not yet in the map
    | Mapped      // in the map, its notifier not yet started
    | Finished    // the worker has let go of it
    | Deciding    // request failed, the retry goroutine starts
    | Resending   // the retry goroutine wants a worker
    | OpenErr     // a worker is stuck reporting that the file cannot be opened
    | RetryErr    // the retry goroutine is stuck reporting that no attempt is left
    | Errored     // its error was reported
    | Dropped     // given up because of a shutdown

  datatype Task = Task(phase: Phase, retry: nat, starts: nat, file: Option<Bytes>)

  datatype Dispatcher = Planning | Sending | PlanErr | Stopped

  datatype Merger = Opening | AtTop | Awaiting | Popped | Copying | Removing | Cleaning | MergeErr
                  | Merged | Failed | Aborted

  datatype Ret = NotYet | Nil | Err

  /** The dispatcher: what calTask keeps. */
  datatype Feed = Feed(disp: Dispatcher, next: nat, planned: bool, lastIndex: int)

  /** The merger: its loop variable, how many chunks it has taken, copied and deleted, the bytes of
      the copy under way, and the output. */
  datatype Merge = Merge(at: Merger, i: nat, popped: nat, merged: nat, removed: nat, copied: nat, output: Bytes)

  /** Do and the surroundings; broken: a planning or file operation has failed; blamed: the chunk
      whose error Do took because it ran out of attempts. */
  datatype Outcome = Outcome(wgDone: bool, ret: Ret, broken: bool, blamed: nat, shutdown: bool, cancelled: bool)

  datatype State = State(
    tasks: seq<Task>, feed: Feed, m: Merge, o: Outcome,
    exited: nat,         // workers that have returned
    taskMap: set<nat>,   // completed chunks, by index
    notify: set<nat>,    // notifiers still waiting to be heard
    downloaded: int)

  function InitTask(cfg: Config, i: nat): Task
    requires cfg.Valid() && i < cfg.N()
  {
    Task(Waiting, 0, 0, if cfg.plan[i].completed then Some(cfg.Chunk(i)) else None)
  }

  function Init(cfg: Config): State
    requires cfg.Valid()
  {
    State(seq(cfg.N(), i requires 0 <= i < cfg.N() && cfg.Valid() => InitTask(cfg, i)),
          Feed(Planning, 0, false, 0), Merge(Opening, 0, 0, 0, 0, 0, cfg.base),
          Outcome(false, NotYet, false, 0, false, false), 0, {}, {}, 0)
  }

  // ---------- totals over the tasks ----------

  datatype Gauge = Occupied | InFlight | Counting | Budget

  function Size(cfg: Config, i: nat): nat
    requires cfg.Valid() && i < cfg.N()
  {
    cfg.plan[i].end - cfg.plan[i].start + 1
  }

  predicate HoldsWorker(p: Phase) { p.Held? || InHandle(p) }

  /** Inside handleTask: the wait group is raised and a semaphore slot is taken. */
  predicate InHandle(p: Phase) { p.Running? || p.Counted? || p.Mapped? || p.OpenErr? }

  predicate IsDone(p: Phase) { p.Mapped? || p.Finished? }

  /** What is left to do for a task at most; the unit is one step. */
  function BudgetOf(cfg: Config, i: nat, t: Task): nat
    requires cfg.Valid() && i < cfg.N()
  {
    var size := Size(cfg, i);
    var attempts := if t.retry <= cfg.maxRetry then cfg.maxRetry - t.retry else 0;
    attempts * (size + 10)
    + match t.phase
      case Waiting => size + 8
      case Held => size + 7
      case Running => 5 + (if t.file.Some? && |t.file.value| <= size then size - |t.file.value| else 0)
      case Counted => 4
      case Mapped => 3
      case Finished => 0
      case Deciding => 3
      case Resending => size + 8
      case OpenErr => 2
      case RetryErr => 2
      case Errored => 0
      case Dropped => 0
  }

  function Weight(cfg: Config, g: Gauge, i: nat, t: Task): nat
    requires cfg.Valid() && i < cfg.N()
  {
    match g
    case Occupied => if HoldsWorker(t.phase) then 1 else 0
    case InFlight => if InHandle(t.phase) then 1 else 0
    case Counting => if t.phase.Counted? || IsDone(t.phase) then Size(cfg, i) else 0
    case Budget => BudgetOf(cfg, i, t)
  }

  function Total(cfg: Config, g: Gauge, tasks: seq<Task>): nat
    requires cfg.Valid() && |tasks| <= cfg.N()
  {
    if tasks == [] then 0
    else Total(cfg, g, tasks[..|tasks| - 1]) + Weight(cfg, g, |tasks| - 1, tasks[|tasks| - 1])
  }

  lemma {:induction false} TotalUpdate(cfg: Config, g: Gauge, tasks: seq<Task>, i: nat, t: Task)
    requires cfg.Valid() && |tasks| <= cfg.N() && i < |tasks|
    ensures Total(cfg, g, tasks[i := t])
            == Total(cfg, g, tasks) - Weight(cfg, g, i, tasks[i]) + Weight(cfg, g, i, t)
  {
    var n := |tasks| - 1;
    var tasks' := tasks[i := t];
    if i == n {
      assert tasks'[..n] == tasks[..n];
    } else {
      TotalUpdate(cfg, g, tasks[..n], i, t);
      assert tasks'[..n] == tasks[..n][i := t];
    }
  }

  /** Totals that do not look at what changed. */
  lemma {:induction false} TotalSame(cfg: Config, g: Gauge, tasks: seq<Task>, tasks': seq<Task>)
    requires cfg.Valid() && |tasks| == |tasks'| <= cfg.N()
    requires forall i :: 0 <= i < |tasks| ==> Weight(cfg, g, i, tasks'[i]) == Weight(cfg, g, i, tasks[i])
    ensures Total(cfg, g, tasks') == Total(cfg, g, tasks)
  {
    if tasks != [] {
      var n := |tasks| - 1;
      assert forall i :: 0 <= i < n ==> tasks'[..n][i] == tasks'[i] && tasks[..n][i] == tasks[i];
      TotalSame(cfg, g, tasks[..n], tasks'[..n]);
    }
  }

  lemma {:induction false} TotalAtLeast(cfg: Config, g: Gauge, tasks: seq<Task>, i: nat)
    requires cfg.Valid() && |tasks| <= cfg.N() && i < |tasks|
    ensures Total(cfg, g, tasks) >= Weight(cfg, g, i, tasks[i])
  {
    if i < |tasks| - 1 { TotalAtLeast(cfg, g, tasks[..|tasks| - 1], i); }
  }

  lemma {:induction false} TotalHasOne(cfg: Config, g: Gauge, tasks: seq<Task>) returns (i: nat)
    requires cfg.Valid() && |tasks| <= cfg.N() && Total(cfg, g, tasks) > 0
    ensures i < |tasks| && Weight(cfg, g, i, tasks[i]) > 0
  {
    var n := |tasks| - 1;
    if Weight(cfg, g, n, tasks[n]) > 0 {
      i := n;
    } else {
      i := TotalHasOne(cfg, g, tasks[..n]);
    }
  }

  // ---------- events ----------

  /** Steps that move one chunk along: by the dispatcher, a worker or a retry goroutine. */
  datatype TaskStep =
    | Dispatch                // the dispatcher hands the chunk to an idle worker
    | Acquire                 // the worker gets the semaphore and enters handleTask
    | OpenFail                // the same, but the chunk file cannot be opened
    | Receive(upTo: nat)      // more of the answer is on disk
    | Succeed | Fail          // how the request ends
    | PutMap | Spawn          // completeTask: into the map, then start the notifier
    | Decide | Resend         // the retry goroutine
    | TakeOpenErr | TakeRetryErr  // Do receives the error the chunk ended with

  /** Steps of the merger goroutine. */
  datatype MergerStep =
    | MergerOpen | MergerOpenFail | Check | Hear(from: nat) | MergerAbort
    | OpenTemp | OpenTempFail | CopySome(upTo: nat) | CopyFail | CopyEnd
    | Remove | RemoveFail            // deleting a merged chunk file; a failure is ignored
    | Clean | CleanFail(kept: set<nat>)  // deleting the whole chunk directory; a failure leaves some files
    | TakeMergeErr

  /** Steps of Do, of goroutines that plan or leave, and of the surroundings. */
  datatype ControlStep =
    | Plan | PlanFail | DispatcherExit | NotifierExit(from: nat) | WorkerExit
    | CloseWg | ReturnNil | TakePlanErr | Shutdown | Cancel

  datatype Event = OfTask(t: nat, step: TaskStep) | OfMerger(m: MergerStep) | OfControl(c: ControlStep)

  /** Steps of the surroundings that are not counted on for progress. */
  predicate Outside(e: Event) { e == OfControl(Shutdown) || e == OfControl(Cancel) }

  predicate DoneClosed(s: State) { s.o.ret != NotYet }

  predicate IdleWorker(cfg: Config, s: State)
    requires cfg.Valid() && |s.tasks| == cfg.N()
  {
    Total(cfg, Occupied, s.tasks) + s.exited < cfg.concurrency
  }

  predicate FreeSlot(cfg: Config, s: State)
    requires cfg.Valid() && |s.tasks| == cfg.N()
  {
    Total(cfg, InFlight, s.tasks) < cfg.maxThread
  }

  predicate MergerDone(m: Merger) { m.Merged? || m.Failed? || m.Aborted? }

  predicate TaskEnabled(cfg: Config, s: State, t: nat, e: TaskStep)
    requires cfg.Valid() && |s.tasks| == cfg.N() && t < cfg.N()
  {
    var task := s.tasks[t];
    match e
    case Dispatch => s.feed.disp == Sending && t == s.feed.next && IdleWorker(cfg, s)
    case Acquire => task.phase == Held && FreeSlot(cfg, s)
    case OpenFail => task.phase == Held && FreeSlot(cfg, s) && !s.o.shutdown && !cfg.plan[t].completed
    case Receive(upTo) => task.phase == Running && task.file.Some? && |task.file.value| < upTo <= Size(cfg, t)
    case Succeed => task.phase == Running
    case Fail => task.phase == Running
    case PutMap => task.phase == Counted
    case Spawn => task.phase == Mapped
    case Decide => task.phase == Deciding
    case Resend => task.phase == Resending && IdleWorker(cfg, s)
    case TakeOpenErr => s.o.ret == NotYet && task.phase == OpenErr
    case TakeRetryErr => s.o.ret == NotYet && task.phase == RetryErr
  }

  /** The chunk after the step. */
  function TaskAfter(cfg: Config, s: State, t: nat, e: TaskStep): Task
    requires cfg.Valid() && |s.tasks| == cfg.N() && t < cfg.N()
  {
    var task := s.tasks[t];
    match e
    case Dispatch => task.(phase := Held)
    case Acquire =>
      if s.o.shutdown then task.(phase := Dropped)
      else if cfg.plan[t].completed then task.(phase := Counted)
      else task.(phase := Running, file := Some([]), starts := task.starts + 1)
    case OpenFail => task.(phase := OpenErr)
    case Receive(upTo) => if upTo <= Size(cfg, t) then task.(file := Some(cfg.Chunk(t)[..upTo])) else task
    case Succeed => task.(phase := Counted, file := Some(cfg.Chunk(t)))
    case Fail => task.(phase := Deciding)
    case PutMap => task.(phase := Mapped)
    case Spawn => task.(phase := Finished)
    case Decide => if task.retry < cfg.maxRetry then task.(phase := Resending, retry := task.retry + 1)
                   else task.(phase := RetryErr)
    case Resend => task.(phase := Held)
    case TakeOpenErr => task.(phase := Errored)
    case TakeRetryErr => task.(phase := Errored)
  }

  function TaskApply(cfg: Config, s: State, t: nat, e: TaskStep): State
    requires cfg.Valid() && |s.tasks| == cfg.N() && t < cfg.N()
  {
    var s' := s.(tasks := s.tasks[t := TaskAfter(cfg, s, t, e)]);
    match e
    case Dispatch => s'.(feed := s.feed.(next := s.feed.next + 1))
    case Acquire =>
      if !s.o.shutdown && cfg.plan[t].completed then s'.(downloaded := s.downloaded + Size(cfg, t)) else s'
    case OpenFail => s'.(o := s.o.(broken := true))
    case Succeed => s'.(downloaded := s.downloaded + Size(cfg, t))
    case PutMap => s'.(taskMap := s.taskMap + {t})
    case Spawn => s'.(notify := s.notify + {t})
    case TakeOpenErr => s'.(o := s.o.(ret := Err))
    case TakeRetryErr => s'.(o := s.o.(ret := Err, blamed := t))
    case _ => s'
  }

  predicate MergerEnabled(cfg: Config, s: State, e: MergerStep)
    requires cfg.Valid() && |s.tasks| == cfg.N()
  {
    match e
    case MergerOpen => s.m.at == Opening
    case MergerOpenFail => s.m.at == Opening
    case Check => s.m.at == AtTop
    case Hear(j) => s.m.at == Awaiting && j in s.notify
    case MergerAbort => s.m.at == Awaiting && (DoneClosed(s) || s.o.shutdown)
    case OpenTemp => s.m.at == Popped && s.m.i < cfg.N() && s.tasks[s.m.i].file.Some?
    case OpenTempFail => s.m.at == Popped
    case CopySome(upTo) => s.m.at == Copying && s.m.i < cfg.N() && s.tasks[s.m.i].file.Some?
                           && s.m.copied < upTo <= |s.tasks[s.m.i].file.value|
    case CopyFail => s.m.at == Copying
    case CopyEnd => s.m.at == Copying && s.m.i < cfg.N() && s.tasks[s.m.i].file.Some?
                    && s.m.copied == |s.tasks[s.m.i].file.value|
    case Remove => s.m.at == Removing && s.m.i < cfg.N()
    case RemoveFail => s.m.at == Removing && s.m.i < cfg.N()
    case Clean => s.m.at == Cleaning
    case CleanFail(_) => s.m.at == Cleaning
    case TakeMergeErr => s.o.ret == NotYet && s.m.at == MergeErr
  }

  /** The merger is through with a chunk. */
  function PastChunk(m: Merge, lastIndex: int): Merge {
    if m.i >= lastIndex then m.(at := Cleaning, removed := m.removed + 1)
    else m.(at := AtTop, i := m.i + 1, removed := m.removed + 1)
  }

  /** The tasks when the files of all but some are gone. */
  function WithoutFiles(tasks: seq<Task>, kept: set<nat>): (r: seq<Task>)
    ensures |r| == |tasks|
  {
    seq(|tasks|, j requires 0 <= j < |tasks| => if j in kept then tasks[j] else tasks[j].(file := None))
  }

  /** The merger after the step. */
  function MergeAfter(cfg: Config, s: State, e: MergerStep): Merge
    requires cfg.Valid() && |s.tasks| == cfg.N() && MergerEnabled(cfg, s, e)
  {
    var m := s.m;
    match e
    case MergerOpen => m.(at := AtTop)
    case MergerOpenFail => m.(at := MergeErr)
    case Check =>
      if s.o.shutdown then m.(at := Aborted)
      else if m.i in s.taskMap then m.(at := Popped, popped := m.popped + 1)
      else m.(at := Awaiting)
    case Hear(j) => if j == m.i then m.(at := Popped, popped := m.popped + 1) else m
    case MergerAbort => m.(at := Aborted)
    case OpenTemp => m.(at := Copying)
    case OpenTempFail => m.(at := MergeErr)
    case CopySome(upTo) => m.(output := m.output + s.tasks[m.i].file.value[m.copied..upTo], copied := upTo)
    case CopyFail => m.(at := MergeErr)
    case CopyEnd => m.(at := Removing, merged := m.merged + 1, copied := 0)
    case Remove => PastChunk(m, s.feed.lastIndex)
    case RemoveFail => PastChunk(m, s.feed.lastIndex)
    case Clean => m.(at := Merged)
    case CleanFail(_) => m.(at := MergeErr)
    case TakeMergeErr => m.(at := Failed)
  }

  function MergerApply(cfg: Config, s: State, e: MergerStep): State
    requires cfg.Valid() && |s.tasks| == cfg.N() && MergerEnabled(cfg, s, e)
  {
    var s' := s.(m := MergeAfter(cfg, s, e));
    match e
    case Check => if !s.o.shutdown && s.m.i in s.taskMap then s'.(taskMap := s.taskMap - {s.m.i}) else s'
    case Hear(j) =>
      // a notification for another chunk goes back into the map
      s'.(notify := s.notify - {j}, taskMap := if j == s.m.i then s.taskMap - {j} else s.taskMap + {j})
    case Remove => s'.(tasks := s.tasks[s.m.i := s.tasks[s.m.i].(file := None)])
    case MergerOpenFail => s'.(o := s.o.(broken := true))
    case OpenTempFail => s'.(o := s.o.(broken := true))
    case CopyFail => s'.(o := s.o.(broken := true))
    case Clean => s'.(tasks := WithoutFiles(s.tasks, {}))
    case CleanFail(kept) => s'.(tasks := WithoutFiles(s.tasks, kept), o := s.o.(broken := true))
    case TakeMergeErr => s'.(o := s.o.(ret := Err))
    case _ => s'
  }

  predicate ControlEnabled(cfg: Config, s: State, e: ControlStep)
    requires cfg.Valid() && |s.tasks| == cfg.N()
  {
    match e
    case Plan => s.feed.disp == Planning
    case PlanFail => s.feed.disp == Planning
    case DispatcherExit => s.feed.disp == Sending && s.feed.next < cfg.N() && (DoneClosed(s) || s.o.shutdown)
    case NotifierExit(j) => j in s.notify && DoneClosed(s)
    case WorkerExit => IdleWorker(cfg, s) && (DoneClosed(s) || s.o.shutdown || s.o.cancelled)
    case CloseWg => MergerDone(s.m.at) && Total(cfg, InFlight, s.tasks) == 0 && !s.o.wgDone
    case ReturnNil => s.o.ret == NotYet && s.o.wgDone
    case TakePlanErr => s.o.ret == NotYet && s.feed.disp == PlanErr
    case Shutdown => !s.o.shutdown
    case Cancel => !s.o.cancelled
  }

  function ControlApply(cfg: Config, s: State, e: ControlStep): State {
    match e
    case Plan => s.(feed := s.feed.(disp := Sending, planned := true, lastIndex := cfg.N() - 1),
                    downloaded := s.downloaded + |cfg.base|)
    case PlanFail => s.(feed := s.feed.(disp := PlanErr), o := s.o.(broken := true))
    case DispatcherExit => s.(feed := s.feed.(disp := Stopped))
    case NotifierExit(j) => s.(notify := s.notify - {j})
    case WorkerExit => s.(exited := s.exited + 1)
    case CloseWg => s.(o := s.o.(wgDone := true))
    case ReturnNil => s.(o := s.o.(ret := Nil))
    case TakePlanErr => s.(o := s.o.(ret := Err), feed := s.feed.(disp := Stopped))
    case Shutdown => s.(o := s.o.(shutdown := true))
    case Cancel => s.(o := s.o.(cancelled := true))
  }

  predicate Enabled(cfg: Config, s: State, e: Event)
    requires cfg.Valid() && |s.tasks| == cfg.N()
  {
    match e
    case OfTask(t, step) => t < cfg.N() && TaskEnabled(cfg, s, t, step)
    case OfMerger(m) => MergerEnabled(cfg, s, m)
    case OfControl(c) => ControlEnabled(cfg, s, c)
  }

  function Apply(cfg: Config, s: State, e: Event): State
    requires cfg.Valid() && |s.tasks| == cfg.N() && Enabled(cfg, s, e)
  {
    match e
    case OfTask(t, step) => TaskApply(cfg, s, t, step)
    case OfMerger(m) => MergerApply(cfg, s, m)
    case OfControl(c) => ControlApply(cfg, s, c)
  }

  // ---------- runs ----------

  predicate CanStep(cfg: Config, s: State, e: Event)
    requires cfg.Valid()
  {
    |s.tasks| == cfg.N() && Enabled(cfg, s, e)
  }

  /** The state that a sequence of events leads to, if each is possible when its turn comes. */
  function RunFrom(cfg: Config, s: State, events: seq<Event>): Option<State>
    requires cfg.Valid()
    decreases |events|
  {
    if events == [] then Some(s)
    else if CanStep(cfg, s, events[0]) then RunFrom(cfg, Apply(cfg, s, events[0]), events[1..])
    else None
  }

  ghost predicate Reachable(cfg: Config, s: State)
    requires cfg.Valid()
  {
    exists events :: RunFrom(cfg, Init(cfg), events) == Some(s)
  }

  lemma {:induction false} RunOneMore(cfg: Config, s: State, events: seq<Event>, mid: State, e: Event)
    requires cfg.Valid() && RunFrom(cfg, s, events) == Some(mid) && CanStep(cfg, mid, e)
    ensures RunFrom(cfg, s, events + [e]) == Some(Apply(cfg, mid, e))
    decreases |events|
  {
    if events == [] {
      assert (events + [e])[1..] == [];
    } else {
      RunOneMore(cfg, Apply(cfg, s, events[0]), events[1..], mid, e);
      assert (events + [e])[1..] == events[1..] + [e];
    }
  }
}
