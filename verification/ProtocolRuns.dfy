/** Runs that do happen: merging any number of chunks, with success or any of the errors at the end. */
module ProtocolRuns {
  import opened Basics
  import opened Planner
  import opened Protocol
  import opened ProtocolInvariant
  import opened ProtocolSafety
  import opened ProtocolLiveness

  // ---------- merging one chunk after the other ----------

  /** The merger is through with k chunks, and nothing has begun on the others. works: whether the deletions of
      their files worked. */
  ghost predicate MergedTo(cfg: Config, s: State, k: nat, works: bool)
    requires cfg.Valid() && k <= cfg.N()
  {
    && |s.tasks| == cfg.N() > 0 && s.feed == Feed(Sending, k, true, cfg.N() - 1)
    && s.o == Init(cfg).o && s.exited == 0 && s.taskMap == {}
    && s.m == (if k < cfg.N() then Merge(AtTop, k, k, k, k, 0, cfg.Assembled(k))
               else Merge(Cleaning, k - 1, k, k, k, 0, cfg.Assembled(k)))
    && (forall j :: 0 <= j < k ==>
          s.tasks[j].phase == Finished && s.tasks[j].file == (if works then None else Some(cfg.Chunk(j))))
    && (forall j :: k <= j < cfg.N() ==> s.tasks[j] == InitTask(cfg, j))
    && (forall j :: j in s.notify <==> 0 <= j < k)
  }

  /** A run up to now, in which every deletion worked if works. */
  ghost predicate TidyRun(cfg: Config, events: seq<Event>, s: State, works: bool)
    requires cfg.Valid()
  {
    RunFrom(cfg, Init(cfg), events) == Some(s) && (works ==> RemovalsWork(events))
  }

  lemma OneMoreStep(cfg: Config, events: seq<Event>, s: State, works: bool, e: Event)
    returns (events': seq<Event>, s': State)
    requires cfg.Valid() && TidyRun(cfg, events, s, works) && CanStep(cfg, s, e)
    requires works ==> e != OfMerger(RemoveFail)
    ensures TidyRun(cfg, events', s', works) && s' == Apply(cfg, s, e)
  {
    RunOneMore(cfg, Init(cfg), events, s, e);
    events', s' := events + [e], Apply(cfg, s, e);
  }

  /** Chunk k in some phase, all else as when the first k were merged. */
  predicate ChunkAt(cfg: Config, was: State, s: State, k: nat, p: Phase)
    requires cfg.Valid() && k < cfg.N()
  {
    && |was.tasks| == |s.tasks| == cfg.N() && s.tasks[k].phase == p
    && s.tasks == was.tasks[k := s.tasks[k]] && s.feed == was.feed.(next := k + 1)
    && s.m == was.m && s.o == was.o && s.exited == was.exited
    && s.notify == was.notify + (if p == Finished then {k} else {})
    && s.taskMap == (if IsDone(p) then {k} else {})
    && (IsDone(p) || p == Counted ==> s.tasks[k].file == Some(cfg.Chunk(k)))
  }

  lemma DispatchNext(cfg: Config, events: seq<Event>, s: State, k: nat, works: bool)
    returns (events': seq<Event>, s': State)
    requires cfg.Valid() && k < cfg.N() && TidyRun(cfg, events, s, works) && MergedTo(cfg, s, k, works)
    requires cfg.concurrency > 0 && cfg.maxThread > 0
    ensures TidyRun(cfg, events', s', works) && ChunkAt(cfg, s, s', k, Held) && FreeSlot(cfg, s')
    ensures s'.tasks[k].file == InitTask(cfg, k).file
  {
    NobodyBusy(cfg, s.tasks);
    TotalUpdate(cfg, InFlight, s.tasks, k, s.tasks[k].(phase := Held));
    events', s' := OneMoreStep(cfg, events, s, works, OfTask(k, Dispatch));
  }

  lemma StartNext(cfg: Config, events: seq<Event>, was: State, s: State, k: nat, works: bool)
    returns (events': seq<Event>, s': State)
    requires cfg.Valid() && k < cfg.N() && TidyRun(cfg, events, s, works) && was.o == Init(cfg).o
    requires ChunkAt(cfg, was, s, k, Held) && FreeSlot(cfg, s) && s.tasks[k].file == InitTask(cfg, k).file
    ensures TidyRun(cfg, events', s', works)
    ensures ChunkAt(cfg, was, s', k, if cfg.plan[k].completed then Counted else Running)
  {
    events', s' := OneMoreStep(cfg, events, s, works, OfTask(k, Acquire));
  }

  /** A chunk takes the next step on its way into the map. */
  lemma ChunkGoesOn(cfg: Config, events: seq<Event>, was: State, s: State, k: nat, p: Phase, works: bool)
    returns (events': seq<Event>, s': State)
    requires cfg.Valid() && k < cfg.N() && MergedTo(cfg, was, k, works)
    requires TidyRun(cfg, events, s, works) && ChunkAt(cfg, was, s, k, p)
    requires p == Running || p == Counted || p == Mapped
    ensures TidyRun(cfg, events', s', works)
    ensures ChunkAt(cfg, was, s', k, if p == Running then Counted else if p == Counted then Mapped else Finished)
  {
    var step := if p == Running then Succeed else if p == Counted then PutMap else Spawn;
    events', s' := OneMoreStep(cfg, events, s, works, OfTask(k, step));
  }

  lemma FetchNext(cfg: Config, events: seq<Event>, s: State, k: nat, works: bool)
    returns (events': seq<Event>, s': State)
    requires cfg.Valid() && k < cfg.N() && TidyRun(cfg, events, s, works) && MergedTo(cfg, s, k, works)
    requires cfg.concurrency > 0 && cfg.maxThread > 0
    ensures TidyRun(cfg, events', s', works) && ChunkAt(cfg, s, s', k, Finished)
  {
    events', s' := DispatchNext(cfg, events, s, k, works);
    events', s' := StartNext(cfg, events', s, s', k, works);
    if !cfg.plan[k].completed {
      events', s' := ChunkGoesOn(cfg, events', s, s', k, Running, works);
    }
    events', s' := ChunkGoesOn(cfg, events', s, s', k, Counted, works);
    events', s' := ChunkGoesOn(cfg, events', s, s', k, Mapped, works);
  }

  /** Chunk k is there in full, and the merger has got as far as m with it. */
  predicate Merging(cfg: Config, was: State, s: State, k: nat, m: Merge)
    requires cfg.Valid() && k < cfg.N()
  {
    && |was.tasks| == |s.tasks| == cfg.N() && s.tasks[k].phase == Finished && s.tasks[k].file == Some(cfg.Chunk(k))
    && s.tasks == was.tasks[k := s.tasks[k]] && s.feed == was.feed.(next := k + 1)
    && s.o == was.o && s.exited == was.exited && s.taskMap == {} && s.notify == was.notify + {k} && s.m == m
  }

  lemma PopNext(cfg: Config, events: seq<Event>, was: State, s: State, k: nat, works: bool)
    returns (events': seq<Event>, s': State)
    requires cfg.Valid() && k < cfg.N() && MergedTo(cfg, was, k, works)
    requires TidyRun(cfg, events, s, works) && ChunkAt(cfg, was, s, k, Finished)
    ensures TidyRun(cfg, events', s', works)
    ensures Merging(cfg, was, s', k, Merge(Popped, k, k + 1, k, k, 0, cfg.Assembled(k)))
  {
    events', s' := OneMoreStep(cfg, events, s, works, OfMerger(Check));
  }

  lemma OpenNext(cfg: Config, events: seq<Event>, was: State, s: State, k: nat, works: bool)
    returns (events': seq<Event>, s': State)
    requires cfg.Valid() && k < cfg.N() && TidyRun(cfg, events, s, works)
    requires Merging(cfg, was, s, k, Merge(Popped, k, k + 1, k, k, 0, cfg.Assembled(k)))
    ensures TidyRun(cfg, events', s', works)
    ensures Merging(cfg, was, s', k, Merge(Copying, k, k + 1, k, k, 0, cfg.Assembled(k)))
  {
    events', s' := OneMoreStep(cfg, events, s, works, OfMerger(OpenTemp));
  }

  lemma CopyNext(cfg: Config, events: seq<Event>, was: State, s: State, k: nat, works: bool)
    returns (events': seq<Event>, s': State)
    requires cfg.Valid() && k < cfg.N() && TidyRun(cfg, events, s, works)
    requires Merging(cfg, was, s, k, Merge(Copying, k, k + 1, k, k, 0, cfg.Assembled(k)))
    ensures TidyRun(cfg, events', s', works)
    ensures Merging(cfg, was, s', k, Merge(Removing, k, k + 1, k + 1, k, 0, cfg.Assembled(k + 1)))
  {
    var size := |cfg.Chunk(k)|;
    assert cfg.Chunk(k)[0..size] == cfg.Chunk(k);
    events', s' := OneMoreStep(cfg, events, s, works, OfMerger(CopySome(size)));
    assert Merging(cfg, was, s', k, Merge(Copying, k, k + 1, k, k, size, cfg.Assembled(k + 1)));
    events', s' := OneMoreStep(cfg, events', s', works, OfMerger(CopyEnd));
  }

  lemma DeleteNext(cfg: Config, events: seq<Event>, was: State, s: State, k: nat, works: bool)
    returns (events': seq<Event>, s': State)
    requires cfg.Valid() && k < cfg.N() && MergedTo(cfg, was, k, works) && TidyRun(cfg, events, s, works)
    requires Merging(cfg, was, s, k, Merge(Removing, k, k + 1, k + 1, k, 0, cfg.Assembled(k + 1)))
    ensures TidyRun(cfg, events', s', works) && MergedTo(cfg, s', k + 1, works)
  {
    events', s' := OneMoreStep(cfg, events, s, works, OfMerger(if works then Remove else RemoveFail));
  }

  lemma ReachOpened(cfg: Config, works: bool) returns (events: seq<Event>, s: State)
    requires cfg.Valid() && cfg.N() > 0
    ensures TidyRun(cfg, events, s, works) && MergedTo(cfg, s, 0, works)
  {
    events, s := OneMoreStep(cfg, [], Init(cfg), works, OfControl(Plan));
    events, s := OneMoreStep(cfg, events, s, works, OfMerger(MergerOpen));
  }

  /** Whatever the plan is, some run merges just its first k chunks, one after the other; and so does one in
      which no deletion of a merged chunk's file works. */
  lemma {:induction false} ReachMerged(cfg: Config, k: nat, works: bool) returns (events: seq<Event>, s: State)
    requires cfg.Valid() && k <= cfg.N() && cfg.N() > 0 && cfg.concurrency > 0 && cfg.maxThread > 0
    ensures TidyRun(cfg, events, s, works) && MergedTo(cfg, s, k, works)
  {
    if k == 0 {
      events, s := ReachOpened(cfg, works);
    } else {
      var was;
      events, was := ReachMerged(cfg, k - 1, works);
      events, s := FetchNext(cfg, events, was, k - 1, works);
      events, s := PopNext(cfg, events, was, s, k - 1, works);
      events, s := OpenNext(cfg, events, was, s, k - 1, works);
      events, s := CopyNext(cfg, events, was, s, k - 1, works);
      events, s := DeleteNext(cfg, events, was, s, k - 1, works);
    }
  }

  /** Every plan that is not empty can be brought to its end, whether or not deletions work. */
  lemma EveryPlanSucceeds(cfg: Config, works: bool) returns (events: seq<Event>, s: State)
    requires cfg.Valid() && cfg.N() > 0 && cfg.concurrency > 0 && cfg.maxThread > 0
    ensures TidyRun(cfg, events, s, works)
    ensures s.o.ret == Nil && !s.o.shutdown && !s.o.cancelled && s.m.output == cfg.Assembled(cfg.N())
  {
    events, s := ReachMerged(cfg, cfg.N(), works);
    NobodyBusy(cfg, s.tasks);
    events, s := OneMoreStep(cfg, events, s, works, OfMerger(Clean));
    NobodyBusy(cfg, s.tasks);
    events, s := CloseAndReturn(cfg, events, s, works);
  }

  lemma CloseAndReturn(cfg: Config, events: seq<Event>, s: State, works: bool)
    returns (events': seq<Event>, s': State)
    requires cfg.Valid() && TidyRun(cfg, events, s, works) && |s.tasks| == cfg.N()
    requires MergerDone(s.m.at) && Total(cfg, InFlight, s.tasks) == 0 && s.o == Init(cfg).o
    ensures TidyRun(cfg, events', s', works) && s' == s.(o := s.o.(wgDone := true, ret := Nil))
  {
    events', s' := OneMoreStep(cfg, events, s, works, OfControl(CloseWg));
    events', s' := OneMoreStep(cfg, events', s', works, OfControl(ReturnNil));
  }

  /** An entry of the map may be left over: while the merger waits for chunk 1 it hears of chunk 0, which it has
      merged, and puts it back. */
  lemma StaleEntryHappens(cfg: Config) returns (s: State)
    requires cfg.Valid() && cfg.N() > 1 && cfg.concurrency > 0 && cfg.maxThread > 0
    ensures Reachable(cfg, s) && s.m.at == Awaiting && s.m.i == s.m.merged == s.m.removed == 1
    ensures s.taskMap == {0} && s.notify == {}
  {
    var events, was := ReachMerged(cfg, 1, true);
    assert was.notify == {0};
    events, s := WaitForSecond(cfg, events, was);
    events, s := OneMoreStep(cfg, events, s, true, OfMerger(Hear(0)));
  }

  lemma WaitForSecond(cfg: Config, events: seq<Event>, was: State) returns (events': seq<Event>, s: State)
    requires cfg.Valid() && |was.tasks| == cfg.N() && TidyRun(cfg, events, was, true) && !was.o.shutdown
    requires was.m.at == AtTop && was.m.i == was.m.merged == was.m.removed == 1
    requires was.taskMap == {} && was.notify == {0}
    ensures TidyRun(cfg, events', s, true) && |s.tasks| == cfg.N() && s.taskMap == {} && s.notify == {0}
    ensures s.m.at == Awaiting && s.m.i == s.m.merged == s.m.removed == 1
  {
    events', s := OneMoreStep(cfg, events, was, true, OfMerger(Check));
  }

  // ---------- the errors ----------

  lemma MergeErrTaken(cfg: Config, events: seq<Event>, s: State) returns (s': State)
    requires cfg.Valid() && TidyRun(cfg, events, s, true) && |s.tasks| == cfg.N()
    requires s.m.at == MergeErr && s.o.ret == NotYet
    ensures Reachable(cfg, s') && s'.o.ret == Err && s'.m == s.m.(at := Failed) && s'.tasks == s.tasks
  {
    var events';
    events', s' := OneMoreStep(cfg, events, s, true, OfMerger(TakeMergeErr));
  }

  /** Planning may fail. */
  lemma PlanningFails(cfg: Config) returns (s: State)
    requires cfg.Valid()
    ensures Reachable(cfg, s) && s.o.ret == Err && !s.feed.planned && s.m.at == Opening
  {
    var events;
    events, s := OneMoreStep(cfg, [], Init(cfg), true, OfControl(PlanFail));
    events, s := OneMoreStep(cfg, events, s, true, OfControl(TakePlanErr));
  }

  /** The output file may fail to open. */
  lemma OutputFails(cfg: Config) returns (s: State)
    requires cfg.Valid()
    ensures Reachable(cfg, s) && s.o.ret == Err && s.m == Init(cfg).m.(at := Failed)
  {
    var events;
    events, s := OneMoreStep(cfg, [], Init(cfg), true, OfMerger(MergerOpenFail));
    s := MergeErrTaken(cfg, events, s);
  }

  /** The file of any chunk may fail to open for the merger, and the copy may fail after any number of bytes. */
  lemma CopyFails(cfg: Config, k: nat, n: nat) returns (lost: State, s: State)
    requires cfg.Valid() && k < cfg.N() && cfg.concurrency > 0 && cfg.maxThread > 0 && 0 < n <= |cfg.Chunk(k)|
    ensures Reachable(cfg, lost) && lost.o.ret == Err
    ensures lost.m == Merge(Failed, k, k + 1, k, k, 0, cfg.Assembled(k))
    ensures Reachable(cfg, s) && s.o.ret == Err
    ensures s.m == Merge(Failed, k, k + 1, k, k, n, cfg.Assembled(k) + cfg.Chunk(k)[..n])
  {
    var events, was := ReachMerged(cfg, k, true);
    events, s := FetchNext(cfg, events, was, k, true);
    events, s := PopNext(cfg, events, was, s, k, true);
    lost := OpeningFails(cfg, events, was, s, k);
    events, s := OpenNext(cfg, events, was, s, k, true);
    s := CopyingFails(cfg, events, was, s, k, n);
  }

  lemma OpeningFails(cfg: Config, events: seq<Event>, was: State, s: State, k: nat) returns (s': State)
    requires cfg.Valid() && k < cfg.N() && MergedTo(cfg, was, k, true) && TidyRun(cfg, events, s, true)
    requires Merging(cfg, was, s, k, Merge(Popped, k, k + 1, k, k, 0, cfg.Assembled(k)))
    ensures Reachable(cfg, s') && s'.o.ret == Err && s'.m == s.m.(at := Failed)
  {
    var events';
    events', s' := OneMoreStep(cfg, events, s, true, OfMerger(OpenTempFail));
    s' := MergeErrTaken(cfg, events', s');
  }

  lemma CopyingFails(cfg: Config, events: seq<Event>, was: State, s: State, k: nat, n: nat) returns (s': State)
    requires cfg.Valid() && k < cfg.N() && MergedTo(cfg, was, k, true) && TidyRun(cfg, events, s, true)
    requires Merging(cfg, was, s, k, Merge(Copying, k, k + 1, k, k, 0, cfg.Assembled(k))) && 0 < n <= |cfg.Chunk(k)|
    ensures Reachable(cfg, s') && s'.o.ret == Err
    ensures s'.m == Merge(Failed, k, k + 1, k, k, n, cfg.Assembled(k) + cfg.Chunk(k)[..n])
  {
    var events';
    events', s' := OneMoreStep(cfg, events, s, true, OfMerger(CopySome(n)));
    assert cfg.Chunk(k)[0..n] == cfg.Chunk(k)[..n];
    events', s' := OneMoreStep(cfg, events', s', true, OfMerger(CopyFail));
    s' := MergeErrTaken(cfg, events', s');
  }

  /** Deleting the chunk directory may fail: Do then reports an error although the output is complete, and any of
      the files that were left may still be there. */
  lemma CleaningFails(cfg: Config, kept: set<nat>) returns (s: State)
    requires cfg.Valid() && cfg.N() > 0 && cfg.concurrency > 0 && cfg.maxThread > 0
    ensures Reachable(cfg, s) && s.o.ret == Err && s.m.output == cfg.Assembled(cfg.N()) && |s.tasks| == cfg.N()
    ensures forall j :: 0 <= j < cfg.N() ==> s.tasks[j].file == if j in kept then Some(cfg.Chunk(j)) else None
  {
    var events;
    events, s := ReachMerged(cfg, cfg.N(), false);
    events, s := OneMoreStep(cfg, events, s, false, OfMerger(CleanFail(kept)));
    events, s := OneMoreStep(cfg, events, s, false, OfMerger(TakeMergeErr));
  }

  /** The chunk file may fail to open for the worker. */
  lemma ChunkFileFails(cfg: Config) returns (s: State)
    requires cfg.Valid() && cfg.N() > 0 && !cfg.plan[0].completed && cfg.concurrency > 0 && cfg.maxThread > 0
    ensures Reachable(cfg, s) && s.o.ret == Err && |s.tasks| == cfg.N()
    ensures s.tasks[0].phase == Errored && s.tasks[0].starts == 0
  {
    s := ReachFirstHeld(cfg);
    s := StepOf(cfg, s, OpenFail);
    s := StepOf(cfg, s, TakeOpenErr);
  }

  /** Chunk 0 is being requested once more after n failed attempts, from its beginning. */
  predicate AttemptAt(cfg: Config, s: State, n: nat)
    requires cfg.Valid() && cfg.N() > 0
  {
    FirstAt(cfg, s, Running) && s.exited == 0 && s.tasks[0] == Task(Running, n, n + 1, Some([]))
  }

  lemma FirstAttempt(cfg: Config) returns (s: State)
    requires cfg.Valid() && cfg.N() > 0 && !cfg.plan[0].completed && cfg.concurrency > 0 && cfg.maxThread > 0
    ensures Reachable(cfg, s) && AttemptAt(cfg, s, 0)
  {
    s := ReachFirstHeld(cfg);
    s := StepOf(cfg, s, Acquire);
  }

  /** An attempt that got a byte fails; the byte stays on disk. */
  lemma AttemptFails(cfg: Config, s: State, n: nat) returns (s': State)
    requires cfg.Valid() && cfg.N() > 0 && Reachable(cfg, s) && AttemptAt(cfg, s, n)
    ensures Reachable(cfg, s') && FirstAt(cfg, s', Deciding) && s'.exited == 0
    ensures s'.tasks[0] == Task(Deciding, n, n + 1, Some(cfg.Chunk(0)[..1]))
  {
    s' := StepOf(cfg, s, Receive(1));
    assert s'.tasks[0] == Task(Running, n, n + 1, Some(cfg.Chunk(0)[..1]));
    s' := StepOf(cfg, s', Fail);
  }

  lemma NextAttempt(cfg: Config, s: State, n: nat) returns (s': State)
    requires cfg.Valid() && cfg.N() > 0 && !cfg.plan[0].completed && cfg.concurrency > 0 && cfg.maxThread > 0
    requires Reachable(cfg, s) && FirstAt(cfg, s, Deciding) && s.exited == 0 && n < cfg.maxRetry
    requires s.tasks[0] == Task(Deciding, n, n + 1, Some(cfg.Chunk(0)[..1]))
    ensures Reachable(cfg, s') && AttemptAt(cfg, s', n + 1)
  {
    s' := StepOf(cfg, s, Decide);
    NobodyBusy(cfg, s'.tasks);
    TotalUpdate(cfg, InFlight, s'.tasks, 0, s'.tasks[0].(phase := Held));
    s' := StepOf(cfg, s', Resend);
    s' := StepOf(cfg, s', Acquire);
  }

  /** Every number of attempts up to the allowed one happens; each starts the chunk file over. */
  lemma {:induction false} ReachAttempt(cfg: Config, n: nat) returns (s: State)
    requires cfg.Valid() && cfg.N() > 0 && !cfg.plan[0].completed && cfg.concurrency > 0 && cfg.maxThread > 0
    requires n <= cfg.maxRetry
    ensures Reachable(cfg, s) && AttemptAt(cfg, s, n)
  {
    if n == 0 {
      s := FirstAttempt(cfg);
    } else {
      s := ReachAttempt(cfg, n - 1);
      s := AttemptFails(cfg, s, n - 1);
      s := NextAttempt(cfg, s, n - 1);
    }
  }

  /** All attempts at a chunk may fail: Do then reports it, and what the last one got is still on disk. */
  lemma AttemptsRunOut(cfg: Config) returns (s: State)
    requires cfg.Valid() && cfg.N() > 0 && !cfg.plan[0].completed && cfg.concurrency > 0 && cfg.maxThread > 0
    ensures Reachable(cfg, s) && s.o.ret == Err && !s.o.broken && |s.tasks| == cfg.N()
    ensures s.tasks[0] == Task(Errored, cfg.maxRetry, cfg.maxRetry + 1, Some(cfg.Chunk(0)[..1]))
  {
    s := ReachAttempt(cfg, cfg.maxRetry);
    s := AttemptFails(cfg, s, cfg.maxRetry);
    s := StepOf(cfg, s, Decide);
    s := StepOf(cfg, s, TakeRetryErr);
  }
}
