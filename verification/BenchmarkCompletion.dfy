/**
 What a benchmark run can still do: as long as it is neither cancelled in time nor has failed, there is a way
 for it to complete. And what its calls and steps show, exactly.
 */
module BenchmarkCompletion {
  import opened Options
  import opened Rounding
  import opened Benchmark
  import opened BenchmarkRuns
  import BenchmarkStages

  /** A worker short of its last check, not cancelled, with counters a file can have. */
  ghost predicate Healthy(s: Service, id: RunId)
  {
    && Inv(s) && id in s.workers && BeforeLastCheck(s.workers[id].pc) && !s.cancelSet
    && CountersOk(s.config, s.workers[id])
  }

  predicate CountersOk(c: Config, w: Worker)
  {
    && w.written <= TotalSize(c) && w.read <= TotalSize(c)
    && (w.pc == Check(Write) || w.pc == Work(Write) ==> w.written < TotalSize(c))
  }

  // ---------------------------------------------------------------- how far it is to the last check

  function Phase(pc: Pc): nat
  {
    match pc
    case CheckStart => 20
    case Profile => 19
    case Enter(stage) => InPhase(stage) + 1
    case AfterMulti => 13
    case CheckFinal => 2
    case Persist => 1
    case Finish(_) => 0
    case Top(stage) => InPhase(stage)
    case Check(stage) => InPhase(stage)
    case Work(stage) => InPhase(stage)
  }

  function InPhase(stage: Stage): nat
  {
    match stage
    case Single => 17
    case Multi => 14
    case Memory => 11
    case Write => 8
    case Read => 5
  }

  function BytesLeft(c: Config, w: Worker): int
  {
    match w.pc
    case Top(stage) => BytesLeftIn(c, w, stage)
    case Check(stage) => BytesLeftIn(c, w, stage)
    case Work(stage) => BytesLeftIn(c, w, stage)
    case _ => 0
  }

  function BytesLeftIn(c: Config, w: Worker, stage: Stage): int
  {
    match stage
    case Write => TotalSize(c) - w.written
    case Read => TotalSize(c) - w.read
    case _ => 0
  }

  /** Where in the loop: a stage that counts bytes works last, a timed one looks at the time last. */
  function Turn(pc: Pc): nat
  {
    match pc
    case Top(stage) => if stage.Write? || stage.Read? then 2 else 0
    case Check(stage) => if stage.Write? || stage.Read? then 1 else 2
    case Work(stage) => if stage.Write? || stage.Read? then 0 else 1
    case _ => 0
  }

  predicate Nearer(c: Config, w: Worker, w': Worker)
  {
    || Phase(w'.pc) < Phase(w.pc)
    || (Phase(w'.pc) == Phase(w.pc) && 0 <= BytesLeft(c, w') < BytesLeft(c, w))
    || (Phase(w'.pc) == Phase(w.pc) && BytesLeft(c, w') == BytesLeft(c, w) && Turn(w'.pc) < Turn(w.pc))
  }

  // ---------------------------------------------------------------- one step of a run without mishap

  /** The time is up, everything works, the tasks are done, and a read returns as much as it can. */
  function Smooth(s: Service, id: RunId, row: RowId): Input
    requires id in s.workers
  {
    var w := s.workers[id];
    var late := w.stageStart + AtLeast(s.config.singleSeconds, 0.01) + AtLeast(s.config.memorySeconds, 0.01);
    var left := TotalSize(s.config) - w.read;
    Input(if late < s.clock then s.clock else late, true,
      if left <= 0 then 0 else if ChunkSize(s.config) < left then ChunkSize(s.config) else left, true, row, true)
  }

  /** The worker gets nearer its last check, or passes it. */
  ghost predicate Advances(s: Service, s': Service, id: RunId)
    requires id in s.workers
  {
    && id in s'.workers && s'.config == s.config && s'.cancelSet == s.cancelSet
    && !s'.workers[id].pc.Finish? && Nearer(s.config, s.workers[id], s'.workers[id])
    && CountersOk(s.config, s'.workers[id])
  }

  lemma EnterAdvances(s: Service, id: RunId, stage: Stage, i: Input)
    requires id in s.workers && s.workers[id].pc == Enter(stage) && i.ok
    requires CountersOk(s.config, s.workers[id])
    ensures Advances(s, EnterStage(s, id, stage, i), id)
  {
    hide TotalSize, Round, Clamp;
  }

  lemma TopAdvances(s: Service, id: RunId, stage: Stage, i: Input)
    requires id in s.workers && s.workers[id].pc == Top(stage) && i.ok && i.allDone
    requires CountersOk(s.config, s.workers[id])
    requires stage.Single? || stage.Memory? ==> i.now >= s.workers[id].stageStart + Duration(s.config, stage)
    ensures Advances(s, AtTop(s, id, stage, i), id)
  {
    hide TotalSize, Duration;
  }

  lemma WorkAdvances(s: Service, id: RunId, stage: Stage, i: Input)
    requires id in s.workers && s.workers[id].pc == Work(stage) && i.ok && i.unlinkOk
    requires CountersOk(s.config, s.workers[id])
    requires ReadPossible(s, s.workers[id], i)
    ensures Advances(s, DoWork(s, id, stage, i), id)
  {
    hide TotalSize, Round, Clamp, Target;
  }

  lemma OtherAdvances(s: Service, id: RunId, i: Input)
    requires id in s.workers && !s.cancelSet && i.ok
    requires CountersOk(s.config, s.workers[id])
    requires var pc := s.workers[id].pc;
      pc.CheckStart? || pc.Profile? || pc.AfterMulti? || pc.CheckFinal? || pc.Check?
    ensures Advances(s, WorkerStep(s, id, i), id)
  {
    hide TotalSize, Round, Clamp;
  }

  lemma DurationsFit(c: Config, stage: Stage)
    ensures stage.Single? || stage.Memory? ==>
              Duration(c, stage) <= AtLeast(c.singleSeconds, 0.01) + AtLeast(c.memorySeconds, 0.01)
  {
  }

  lemma SmoothPossible(s: Service, id: RunId, row: RowId)
    requires id in s.workers && row !in s.rows && CountersOk(s.config, s.workers[id])
    ensures Possible(s, WorkerMoves(id, Smooth(s, id, row)))
  {
    hide TotalSize;
  }

  lemma SmoothAdvances(s: Service, id: RunId, row: RowId)
    requires Healthy(s, id) && row !in s.rows
    ensures Advances(s, WorkerStep(s, id, Smooth(s, id, row)), id)
  {
    var i := Smooth(s, id, row);
    var s1 := s.(clock := i.now);
    SmoothPossible(s, id, row);
    hide Inv, Round, Clamp, Target, TotalSize, Advances, EnterStage, AtTop, DoWork, CountersOk;
    match s.workers[id].pc {
      case Enter(stage) => EnterAdvances(s1, id, stage, i);
      case Top(stage) =>
        DurationsFit(s.config, stage);
        hide Duration;
        TopAdvances(s1, id, stage, i);
      case Work(stage) => WorkAdvances(s1, id, stage, i);
      case _ => OtherAdvances(s, id, i);
    }
    SameAdvances(s, s1, WorkerStep(s, id, i), id);
  }

  lemma SameAdvances(s: Service, s1: Service, s': Service, id: RunId)
    requires id in s.workers && s1 == s.(clock := s1.clock)
    ensures Advances(s1, s', id) ==> Advances(s, s', id)
  {
    hide Nearer, CountersOk;
  }

  lemma StepsFrom(s: Service, e: Event, after: seq<Event>)
    ensures Steps(s, [e] + after) == Steps(Step(s, e), after)
  {
    hide Step;
    var all := [e] + after;
    if after == [] {
      assert all == [e];
      StepsOne(s, e);
    } else {
      assert all[..|all| - 1] == [e] + after[..|after| - 1];
      StepsFrom(s, e, after[..|after| - 1]);
    }
  }

  lemma CompletesAfter(s: Service, e: Event, id: RunId)
    requires MayComplete(Step(s, e), id)
    ensures MayComplete(s, id)
  {
    hide Steps, Step;
    var after :| CompletesBy(Step(s, e), after, id);
    StepsFrom(s, e, after);
    assert CompletesBy(s, [e] + after, id);
  }

  /** Step by step to the last check, the row and the end. */
  lemma {:induction false} HealthyCompletes(s: Service, id: RunId)
    requires Healthy(s, id)
    ensures MayComplete(s, id)
    decreases Phase(s.workers[id].pc), BytesLeft(s.config, s.workers[id]), Turn(s.workers[id].pc)
  {
    var row := NewRow(s.rows.Keys);
    var e := WorkerMoves(id, Smooth(s, id, row));
    SmoothPossible(s, id, row);
    SmoothAdvances(s, id, row);
    StepKeeps(s, e);
    hide Inv, Smooth, CountersOk, MayComplete, Phase, BytesLeft, Turn;
    var s' := Step(s, e);
    assert s' == WorkerStep(s, id, e.input);
    hide WorkerStep;
    if BeforeLastCheck(s'.workers[id].pc) {
      HealthyCompletes(s', id);
    } else {
      StillCompletes(s', id);
    }
    CompletesAfter(s, e, id);
  }

  lemma FitsCount(c: Config, w: Worker, marks: seq<BenchmarkStages.Mark>)
    requires BenchmarkStages.Fits(c, w, marks) && !w.pc.Finish? && !PastAllChecks(w.pc) && !w.pc.CheckFinal?
    ensures CountersOk(c, w)
  {
    BenchmarkStages.SizesAgree(c);
    hide BenchmarkStages.Passed, TotalSize, BenchmarkStages.FileSize;
  }

  lemma LastCheckPasses(s: Service, id: RunId)
    requires Inv(s) && id in s.workers && s.workers[id].pc.CheckFinal? && !s.cancelSet
    ensures MayComplete(s, id)
  {
    var row := NewRow(s.rows.Keys);
    var e := WorkerMoves(id, Input(s.clock, true, 0, true, row, true));
    assert Step(s, e).workers[id].pc.Persist?;
    hide Inv, Step;
    StillCompletes(Step(s, e), id);
    CompletesAfter(s, e, id);
  }

  /**
   Exactly: in every reachable state, a run whose worker is there can still complete if and only if it has not
   been cancelled before its last check and has met no failure.
   */
  lemma MayCompleteExactly(s0: Service, es: seq<Event>, id: RunId)
    requires Fresh(s0) && id in Steps(s0, es).workers
    ensures var s := Steps(s0, es);
      var pc := s.workers[id].pc;
      MayComplete(s, id) <==> if BeforeLastCheck(pc) then !s.cancelSet else PastAllChecks(pc)
  {
    FreshInv(s0);
    RunKeeps(s0, es);
    BenchmarkStages.RunFits(s0, es, id);
    var s := Steps(s0, es);
    EndedHaveNoWorker(s);
    hide Steps, MayComplete, Inv;
    if Doomed(s, id) {
      NoWayToComplete(s, id);
    } else if PastAllChecks(s.workers[id].pc) {
      StillCompletes(s, id);
    } else if s.workers[id].pc.CheckFinal? {
      LastCheckPasses(s, id);
    } else {
      FitsCount(s.config, s.workers[id], BenchmarkStages.Trace(s0, es, id));
      HealthyCompletes(s, id);
    }
  }

  lemma NoWayToComplete(s: Service, id: RunId)
    requires Inv(s) && Doomed(s, id)
    ensures !MayComplete(s, id)
  {
    hide Steps, Doomed, CompletesBy;
    forall after ensures !CompletesBy(s, after, id) {
      DoomedNeverCompletes(s, after, id);
    }
  }

  // ---------------------------------------------------------------- the calls, exactly

  /** A start is refused exactly while a benchmark runs; otherwise a new run begins, with nothing of the last one. */
  lemma StartExactly(s: Service, id: RunId, threadStarts: bool, now: real)
    ensures var (after, ok) := Start(s, id, threadStarts, now);
      && (s.status == Running ==> after == s && !ok)
      && (s.status != Running ==>
            && ok == threadStarts && after.status == Running && after.run == Some(id) && after.progress == 0.0
            && after.resultId == None && !after.cancelSet && after.clock == now
            && after.workers == (if threadStarts then s.workers[id := Worker(CheckStart, now, 0, 0)] else s.workers)
            && after.rows == s.rows && after.ended == s.ended && after.tempFiles == s.tempFiles)
  {
  }

  /** A cancel is refused exactly while no benchmark runs. */
  lemma CancelExactly(s: Service)
    ensures Cancel(s).1 <==> s.status == Running
    ensures Cancel(s).0 == if s.status == Running then s.(cancelSet := true) else s
  {
  }

  /** From any reachable state in which none runs, a benchmark can be started and then complete. */
  lemma StartMayComplete(s0: Service, es: seq<Event>, id: RunId, at: real)
    requires Fresh(s0) && Steps(s0, es).status != Running && Possible(Steps(s0, es), StartCalled(id, true, at))
    ensures MayComplete(Step(Steps(s0, es), StartCalled(id, true, at)), id)
  {
    var s, e := Steps(s0, es), StartCalled(id, true, at);
    StartExactly(s, id, true, at);
    assert (es + [e])[..|es|] == es;
    assert Steps(s0, es + [e]) == Step(s, e);
    MayCompleteExactly(s0, es + [e], id);
  }

  // ---------------------------------------------------------------- what is shown

  function Shown(x: real): real
  {
    Round(if x < 0.0 then 0.0 else if x > 100.0 then 100.0 else x, 10)
  }

  /** A running benchmark shows a value between 0 and 100 to one decimal, as it is told. */
  lemma UpdateExactly(s: Service, target: real)
    ensures Update(s, target) == if s.status == Running then s.(progress := Shown(target)) else s
  {
    hide Round;
  }

  /** Entering a stage shows 5, 25, 50, 70 or 85 percent. */
  lemma EnterShows(s: Service, id: RunId, i: Input, stage: Stage)
    requires id in s.workers && s.status == Running && s.workers[id].pc == Enter(stage)
    ensures WorkerStep(s, id, i).progress ==
      match stage
      case Single => 5.0
      case Multi => 25.0
      case Memory => 50.0
      case Write => 70.0
      case Read => 85.0
  {
    RoundWhole(5, 10);
    RoundWhole(25, 10);
    RoundWhole(50, 10);
    RoundWhole(70, 10);
    RoundWhole(85, 10);
    hide Round, LeaveDisk;
    LeaveDiskShows(Update(s.(clock := i.now), Base(stage) as real), id, Finish(Failing), i.unlinkOk);
  }

  lemma LeaveDiskShows(s: Service, id: RunId, next: Pc, unlinkOk: bool)
    requires id in s.workers
    ensures LeaveDisk(s, id, next, unlinkOk).progress == s.progress
  {
  }

  /** How much of its time a timed stage has used, one at most. */
  function Used(from: real, seconds: real, now: real): real
  {
    var d := if seconds < 0.01 then 0.01 else seconds;
    var left := if from + d - now < 0.0 then 0.0 else from + d - now;
    if (d - left) / d > 1.0 then 1.0 else (d - left) / d
  }

  function Gone(from: real, seconds: real, now: real): real
  {
    var d := if seconds < 0.01 then 0.01 else seconds;
    if (now - from) / d > 1.0 then 1.0 else (now - from) / d
  }

  /** How far a stage has come, by the time used or by the bytes handled. */
  function Come(c: Config, w: Worker, stage: Stage, now: real): real
    requires BenchmarkStages.FileSize(c) > 0
  {
    var size := BenchmarkStages.FileSize(c);
    match stage
    case Single => 5.0 + 20.0 * Used(w.stageStart, c.singleSeconds, now)
    case Multi => 25.0 + 25.0 * Used(w.stageStart, c.multiSeconds, now)
    case Memory => 50.0 + 20.0 * Gone(w.stageStart, c.memorySeconds, now)
    case Write => 70.0 + 15.0 * (w.written as real / size as real)
    case Read => 85.0 + 14.0 * (w.read as real / size as real)
  }

  lemma SizePositive(c: Config)
    ensures BenchmarkStages.FileSize(c) > 0 && TotalSize(c) == BenchmarkStages.FileSize(c)
  {
  }

  lemma TargetIsCome(c: Config, w: Worker, stage: Stage, now: real)
    requires BenchmarkStages.FileSize(c) > 0
    ensures Target(c, w, stage, now) == Come(c, w, stage, now)
  {
    SizePositive(c);
    hide TotalSize, BenchmarkStages.FileSize;
  }

  /** A unit of work that goes well shows how far its stage has come. */
  lemma WorkShows(s: Service, id: RunId, i: Input, stage: Stage)
    requires id in s.workers && s.status == Running && s.workers[id].pc == Work(stage) && i.ok
    requires stage.Read? ==> s.workers[id].read < BenchmarkStages.FileSize(s.config)
    ensures var after := WorkerStep(s, id, i);
      && BenchmarkStages.FileSize(s.config) > 0
      && id in after.workers && after.workers[id].pc == Top(stage)
      && after.workers[id].stageStart == s.workers[id].stageStart
      && after.progress == Shown(Come(s.config, after.workers[id], stage, i.now))
  {
    SizePositive(s.config);
    hide Round, TotalSize, BenchmarkStages.FileSize, ChunkSize, Target, Come;
    var w := WorkerStep(s, id, i).workers[id];
    TargetIsCome(s.config, w, stage, i.now);
    TargetIsCome(s.config, w.(pc := Work(stage)), stage, i.now);
    SameCome(s.config, w, w.(pc := Work(stage)), stage, i.now);
  }

  /** A unit of work writes one chunk or what is left of the file, or reads one block; the timed stages do neither. */
  lemma WorkCounts(s: Service, id: RunId, i: Input, stage: Stage)
    requires id in s.workers && s.workers[id].pc == Work(stage) && i.ok
    requires stage.Read? ==> s.workers[id].read < BenchmarkStages.FileSize(s.config)
    ensures var w, size := s.workers[id], BenchmarkStages.FileSize(s.config);
      var chunk := if s.config.chunkBytes < 65536 then 65536 else s.config.chunkBytes;
      var after := WorkerStep(s, id, i);
      && id in after.workers
      && after.workers[id].written
         == w.written + (if !stage.Write? then 0 else if chunk < size - w.written then chunk else size - w.written)
      && after.workers[id].read == w.read + if stage.Read? then i.bytes else 0
  {
    SizePositive(s.config);
    hide Round, TotalSize, BenchmarkStages.FileSize, Target;
  }

  lemma SameCome(c: Config, w: Worker, w': Worker, stage: Stage, now: real)
    requires BenchmarkStages.FileSize(c) > 0
    requires w'.stageStart == w.stageStart && w'.written == w.written && w'.read == w.read
    ensures Come(c, w, stage, now) == Come(c, w', stage, now)
  {
  }
}
