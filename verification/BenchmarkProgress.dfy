/**
 The progress the benchmark service shows: it never falls within a run, and it is 100 exactly when the
 run is completed.
 */
module BenchmarkProgress {
  import opened Arithmetic
  import opened Options
  import opened Rounding
  import opened Benchmark
  import opened BenchmarkRuns

  // ---------------------------------------------------------------- fractions of a stage

  /** Work counters stay within the file, and the stage began no later than now. */
  predicate Sane(c: Config, w: Worker, now: real)
  {
    w.written <= TotalSize(c) && w.read <= TotalSize(c) && w.stageStart <= now
  }

  lemma FractionBounds(c: Config, w: Worker, stage: Stage, now: real)
    requires Sane(c, w, now)
    ensures 0.0 <= Fraction(c, w, stage, now) <= 1.0
  {
    match stage {
      case Write => QuotientBounds(w.written as real, w.written as real, TotalSize(c) as real);
      case Read => QuotientBounds(w.read as real, w.read as real, TotalSize(c) as real);
      case Memory => QuotientBounds(now - w.stageStart, now - w.stageStart, Duration(c, stage));
      case _ =>
        var left := w.stageStart + Duration(c, stage) - now;
        var elapsed := Duration(c, stage) - (if left > 0.0 then left else 0.0);
        QuotientBounds(elapsed, elapsed, Duration(c, stage));
    }
  }

  /** Time passing and work done never lower the fraction. */
  lemma FractionMonotone(c: Config, w: Worker, w': Worker, stage: Stage, now: real, now': real)
    requires Sane(c, w, now) && now <= now'
    requires w'.stageStart == w.stageStart && w.written <= w'.written && w.read <= w'.read
    ensures Fraction(c, w, stage, now) <= Fraction(c, w', stage, now')
  {
    match stage {
      case Write => QuotientBounds(w.written as real, w'.written as real, TotalSize(c) as real);
      case Read => QuotientBounds(w.read as real, w'.read as real, TotalSize(c) as real);
      case Memory => QuotientBounds(now - w.stageStart, now' - w.stageStart, Duration(c, stage));
      case _ =>
        var left := w.stageStart + Duration(c, stage) - now;
        var left' := w.stageStart + Duration(c, stage) - now';
        var elapsed := Duration(c, stage) - (if left > 0.0 then left else 0.0);
        var elapsed' := Duration(c, stage) - (if left' > 0.0 then left' else 0.0);
        QuotientBounds(elapsed, elapsed', Duration(c, stage));
    }
  }

  lemma TargetBounds(c: Config, w: Worker, stage: Stage, now: real)
    requires Sane(c, w, now)
    ensures Base(stage) as real <= Target(c, w, stage, now) <= (Base(stage) + Span(stage)) as real
  {
    FractionBounds(c, w, stage, now);
  }

  lemma TargetMonotone(c: Config, w: Worker, w': Worker, stage: Stage, now: real, now': real)
    requires Sane(c, w, now) && now <= now'
    requires w'.stageStart == w.stageStart && w.written <= w'.written && w.read <= w'.read
    ensures Target(c, w, stage, now) <= Target(c, w', stage, now')
  {
    hide Fraction;
    FractionMonotone(c, w, w', stage, now, now');
  }

  // ---------------------------------------------------------------- the invariant

  /** No update so far can have shown more than this. */
  function Ceiling(c: Config, w: Worker, now: real): real
  {
    match w.pc
    case CheckStart => 0.0
    case Profile => 0.0
    case Enter(stage) => Base(stage) as real
    case Top(stage) => Target(c, w, stage, now)
    case Check(stage) => Target(c, w, stage, now)
    case Work(stage) => Target(c, w, stage, now)
    case AfterMulti => 50.0
    case _ => 99.0
  }

  ghost predicate WorkerOk(s: Service, w: Worker)
  {
    Sane(s.config, w, s.clock) && s.progress <= Round(Ceiling(s.config, w, s.clock), 10)
  }

  ghost predicate ProgressInv(s: Service)
  {
    && (s.status == Completed ==> s.progress == 100.0)
    && (s.status != Completed ==> 0.0 <= s.progress <= 99.0)
    && (exists n: int :: s.progress == Over(n, 10))
    && (forall id :: id in s.workers ==> WorkerOk(s, s.workers[id]))
  }

  /** What one step does to the progress of a run. */
  ghost predicate Rises(s: Service, s': Service)
  {
    s'.run == s.run ==> s.progress <= s'.progress
  }

  lemma CeilingBounds(c: Config, w: Worker, now: real)
    requires Sane(c, w, now)
    ensures 0.0 <= Ceiling(c, w, now) <= 99.0
  {
    if w.pc.Top? || w.pc.Check? || w.pc.Work? {
      TargetBounds(c, w, w.pc.stage, now);
    }
  }

  /** The worker moves, the progress stays, and the new ceiling is no lower. */
  lemma SilentMove(s: Service, s': Service, id: RunId)
    requires ProgressInv(s) && OneWorker(s) && id in s.workers
    requires Moved(s, s', id) && s'.config == s.config && s'.progress == s.progress && s'.clock >= s.clock
    requires Sane(s'.config, s'.workers[id], s'.clock)
    requires Ceiling(s.config, s.workers[id], s.clock) <= Ceiling(s'.config, s'.workers[id], s'.clock)
    ensures ProgressInv(s') && Rises(s, s')
  {
    hide Ceiling, Successor, Round;
    assert WorkerOk(s, s.workers[id]);
    RoundMonotone(Ceiling(s.config, s.workers[id], s.clock), Ceiling(s'.config, s'.workers[id], s'.clock), 10);
    assert WorkerOk(s', s'.workers[id]);
    OnlyWorker(s, s', id);
  }

  lemma OnlyWorker(s: Service, s': Service, id: RunId)
    requires OneWorker(s) && id in s.workers && id in s'.workers
    requires s'.workers == s.workers[id := s'.workers[id]]
    ensures forall k :: k in s'.workers ==> k == id
  {
  }

  /** The worker shows a new value: at least what the old ceiling allowed, at most the new one. */
  lemma LoudMove(s: Service, s': Service, id: RunId, shown: real)
    requires ProgressInv(s) && OneWorker(s) && id in s.workers && s.status == Running
    requires Moved(s, s', id) && s'.config == s.config && s'.clock >= s.clock
    requires Sane(s'.config, s'.workers[id], s'.clock)
    requires s'.progress == Round(Clamp(shown), 10)
    requires Ceiling(s.config, s.workers[id], s.clock) <= shown <= Ceiling(s'.config, s'.workers[id], s'.clock)
    ensures ProgressInv(s') && Rises(s, s')
  {
    hide Successor, Round;
    assert WorkerOk(s, s.workers[id]);
    CeilingBounds(s.config, s.workers[id], s.clock);
    CeilingBounds(s'.config, s'.workers[id], s'.clock);
    hide Ceiling;
    assert Clamp(shown) == shown;
    RoundMonotone(Ceiling(s.config, s.workers[id], s.clock), shown, 10);
    RoundMonotone(shown, Ceiling(s'.config, s'.workers[id], s'.clock), 10);
    RoundedRange(shown);
    assert WorkerOk(s', s'.workers[id]);
    OnlyWorker(s, s', id);
  }

  lemma RoundedRange(x: real)
    requires 0.0 <= x <= 99.0
    ensures 0.0 <= Round(x, 10) <= 99.0
    ensures Round(x, 10) == Over(HalfEven(Times(x, 10)), 10)
  {
    RoundMonotone(0.0, x, 10);
    RoundMonotone(x, 99.0, 10);
    RoundWhole(0, 10);
    RoundWhole(99, 10);
    hide HalfEven, Times, Over;
  }

  // ---------------------------------------------------------------- one step

  lemma LeaveQuiet(s: Service, clock: real, id: RunId, stage: Stage, o: Outcome, unlinkOk: bool)
    requires ProgressInv(s) && OneWorker(s) && id in s.workers && clock >= s.clock
    requires BeforeLastCheck(s.workers[id].pc) && !o.Done?
    ensures ProgressInv(Leave(s.(clock := clock), id, stage, o, unlinkOk))
    ensures Rises(s, Leave(s.(clock := clock), id, stage, o, unlinkOk))
  {
    var s' := Leave(s.(clock := clock), id, stage, o, unlinkOk);
    assert WorkerOk(s, s.workers[id]);
    CeilingBounds(s.config, s.workers[id], s.clock);
    LeaveMoves(s.(clock := clock), id, stage, o, unlinkOk);
    assert s'.workers[id].pc.Finish?;
    hide Target;
    SilentMove(s, s', id);
  }

  lemma EnterProgress(s: Service, id: RunId, stage: Stage, i: Input)
    requires ProgressInv(s) && OneWorker(s) && id in s.workers && i.now >= s.clock
    requires s.workers[id].pc == Enter(stage)
    ensures var s' := EnterStage(s.(clock := i.now), id, stage, i); ProgressInv(s') && Rises(s, s')
  {
    var s' := EnterStage(s.(clock := i.now), id, stage, i);
    assert WorkerOk(s, s.workers[id]) && s.status == Running;
    EnterMoves(s.(clock := i.now), id, stage, i);
    var w' := s'.workers[id];
    assert Sane(s.config, w', i.now);
    TargetBounds(s.config, w', stage, i.now);
    hide Round, Target, Clamp, Moved;
    LoudMove(s, s', id, Base(stage) as real);
  }

  lemma TopProgress(s: Service, id: RunId, stage: Stage, i: Input)
    requires ProgressInv(s) && OneWorker(s) && id in s.workers && i.now >= s.clock
    requires s.workers[id].pc == Top(stage)
    ensures var s' := AtTop(s.(clock := i.now), id, stage, i); ProgressInv(s') && Rises(s, s')
  {
    var s1 := s.(clock := i.now);
    var s' := AtTop(s1, id, stage, i);
    var w := s.workers[id];
    assert WorkerOk(s, w);
    TopMoves(s1, id, stage, i);
    if LoopOver(s1, w, stage, i) && !i.ok {
      LeaveQuiet(s, i.now, id, stage, Failing, i.unlinkOk);
    } else {
      TargetBounds(s.config, w, stage, s.clock);
      TargetMonotone(s.config, w, s'.workers[id], stage, s.clock, i.now);
      hide Target, Moved, ProgressInv, Rises;
      SilentMove(s, s', id);
    }
  }

  lemma CheckProgress(s: Service, id: RunId, stage: Stage, i: Input)
    requires ProgressInv(s) && OneWorker(s) && id in s.workers && i.now >= s.clock
    requires s.workers[id].pc == Check(stage)
    ensures var s' := WorkerStep(s, id, i); ProgressInv(s') && Rises(s, s')
  {
    var s' := WorkerStep(s, id, i);
    var w := s.workers[id];
    assert WorkerOk(s, w);
    if s.cancelSet {
      hide Leave, ProgressInv, Rises;
      LeaveQuiet(s, i.now, id, stage, Cancelling, i.unlinkOk);
    } else {
      WorkerMovesOn(s, id, i);
      TargetMonotone(s.config, w, s'.workers[id], stage, s.clock, i.now);
      hide Target, Moved, ProgressInv, Rises;
      SilentMove(s, s', id);
    }
  }

  lemma WorkProgress(s: Service, id: RunId, stage: Stage, i: Input)
    requires ProgressInv(s) && OneWorker(s) && id in s.workers && i.now >= s.clock
    requires s.workers[id].pc == Work(stage) && ReadPossible(s, s.workers[id], i)
    ensures var s' := DoWork(s.(clock := i.now), id, stage, i); ProgressInv(s') && Rises(s, s')
  {
    var s1 := s.(clock := i.now);
    var s' := DoWork(s1, id, stage, i);
    var w := s.workers[id];
    assert WorkerOk(s, w) && s.status == Running;
    WorkMoves(s1, id, stage, i);
    if !i.ok {
      hide Leave, ProgressInv, Rises, Moved;
      LeaveQuiet(s, i.now, id, stage, Failing, i.unlinkOk);
    } else if stage.Read? && w.read >= TotalSize(s.config) {
      CeilingBounds(s.config, w, s.clock);
      hide Target, Moved, ProgressInv, Rises;
      SilentMove(s, s', id);
    } else {
      var w' := s'.workers[id];
      assert w'.pc == Top(stage) && Sane(s.config, w', i.now);
      TargetMonotone(s.config, w, w', stage, s.clock, i.now);
      SameTarget(s.config, w', w'.(pc := Work(stage)), stage, i.now);
      hide Moved, ProgressInv, Rises, Round, Clamp, Fraction;
      LoudMove(s, s', id, Target(s.config, w', stage, i.now));
    }
  }

  lemma SameTarget(c: Config, w: Worker, w': Worker, stage: Stage, now: real)
    requires w'.stageStart == w.stageStart && w'.written == w.written && w'.read == w.read
    ensures Target(c, w, stage, now) == Target(c, w', stage, now)
  {
  }

  lemma FinishProgress(s: Service, id: RunId, o: Outcome, clock: real)
    requires ProgressInv(s) && OneWorker(s) && id in s.workers
    ensures var s' := FinishRun(s.(clock := clock), id, o); ProgressInv(s') && Rises(s, s')
  {
    var s' := FinishRun(s.(clock := clock), id, o);
    assert s.run == Some(id) && s.status == Running;
    var n: int :| s.progress == Over(n, 10);
    RoundExact(n, 10);
    RoundWhole(100, 10);
    assert Over(1000, 10) == 100.0;
    hide Round;
    assert s'.progress == if o.Done? then 100.0 else s.progress;
  }

  lemma OtherProgress(s: Service, id: RunId, i: Input)
    requires ProgressInv(s) && OneWorker(s) && id in s.workers && i.now >= s.clock
    requires var pc := s.workers[id].pc;
      pc.CheckStart? || pc.Profile? || pc.AfterMulti? || pc.CheckFinal? || pc.Persist?
    ensures var s' := WorkerStep(s, id, i); ProgressInv(s') && Rises(s, s')
  {
    var s' := WorkerStep(s, id, i);
    assert WorkerOk(s, s.workers[id]) && s.status == Running;
    WorkerMovesOn(s, id, i);
    hide Round, Moved, ProgressInv, Rises, Clamp, Target;
    if s.workers[id].pc.Profile? {
      LoudMove(s, s', id, 1.0);
    } else {
      SilentMove(s, s', id);
    }
  }

  lemma WorkerProgress(s: Service, id: RunId, i: Input)
    requires ProgressInv(s) && OneWorker(s) && id in s.workers && i.now >= s.clock
    requires ReadPossible(s, s.workers[id], i)
    ensures ProgressInv(WorkerStep(s, id, i)) && Rises(s, WorkerStep(s, id, i))
  {
    match s.workers[id].pc {
      case Enter(stage) =>
        hide EnterStage, ProgressInv, Rises;
        EnterProgress(s, id, stage, i);
      case Top(stage) =>
        hide AtTop, ProgressInv, Rises;
        TopProgress(s, id, stage, i);
      case Check(stage) =>
        hide WorkerStep, ProgressInv, Rises;
        CheckProgress(s, id, stage, i);
      case Work(stage) =>
        hide DoWork, ProgressInv, Rises;
        WorkProgress(s, id, stage, i);
      case Finish(o) =>
        hide FinishRun, ProgressInv, Rises;
        FinishProgress(s, id, o, i.now);
      case _ =>
        hide WorkerStep, ProgressInv, Rises;
        OtherProgress(s, id, i);
    }
  }

  lemma StepProgress(s: Service, e: Event)
    requires ProgressInv(s) && Inv(s)
    ensures ProgressInv(Step(s, e)) && Rises(s, Step(s, e))
  {
    assert OneWorker(s) && IdsOk(s);
    hide Inv;
    if Possible(s, e) {
      match e {
        case StartCalled(id, threadStarts, at) =>
          StartProgress(s, id, threadStarts, at);
        case CancelCalled =>
          hide Ceiling, Round, Over;
          assert forall id :: id in s.workers ==> WorkerOk(s, s.workers[id]);
        case WorkerMoves(id, i) =>
          hide WorkerStep, ProgressInv, Rises;
          WorkerProgress(s, id, i);
      }
    }
  }

  lemma StartProgress(s: Service, id: RunId, threadStarts: bool, at: real)
    requires ProgressInv(s) && OneWorker(s) && IdsOk(s) && id !in s.used
    ensures var s' := Start(s, id, threadStarts, at).0; ProgressInv(s') && Rises(s, s')
  {
    if s.status != Running {
      RoundWhole(0, 10);
      assert Over(0, 10) == 0.0;
      assert s.workers == map[];
    }
  }

  // ---------------------------------------------------------------- whole runs

  lemma {:induction false} RunProgress(s: Service, es: seq<Event>)
    requires ProgressInv(s) && Inv(s)
    ensures ProgressInv(Steps(s, es))
    ensures Steps(s, es).run == s.run || (Steps(s, es).run.Some? && Steps(s, es).run.value !in s.used)
    ensures s.used <= Steps(s, es).used
    ensures Rises(s, Steps(s, es))
  {
    if es != [] {
      var s1 := Steps(s, es[..|es| - 1]);
      var e := es[|es| - 1];
      RunProgress(s, es[..|es| - 1]);
      RunKeeps(s, es[..|es| - 1]);
      StepProgress(s1, e);
      RunIdStep(s1, e);
      if s.run.Some? {
        assert IdsOk(s) && Known(s, s.run.value);
      }
      hide Inv, ProgressInv, Step;
    }
  }

  lemma RunIdStep(s: Service, e: Event)
    ensures Step(s, e).run == s.run || (Step(s, e).run.Some? && Step(s, e).run.value !in s.used)
    ensures s.used <= Step(s, e).used
  {
    hide Round, Clamp, Target;
    if Possible(s, e) && e.WorkerMoves? {
      var id, i := e.worker, e.input;
      if s.workers[id].pc.Finish? {
      } else {
        WorkerMovesOn(s, id, i);
        hide WorkerStep;
      }
    }
  }

  lemma FreshProgress(s: Service)
    requires Fresh(s)
    ensures ProgressInv(s)
  {
    assert Over(0, 10) == 0.0;
  }

  /** Under any interleaving, as long as the same run is current the progress shown never falls. */
  lemma ProgressNeverFalls(s0: Service, before: seq<Event>, after: seq<Event>)
    requires Fresh(s0)
    requires Steps(Steps(s0, before), after).run == Steps(s0, before).run
    ensures Steps(s0, before).progress <= Steps(Steps(s0, before), after).progress
  {
    FreshInv(s0);
    FreshProgress(s0);
    RunKeeps(s0, before);
    RunProgress(s0, before);
    RunProgress(Steps(s0, before), after);
  }

  /** Progress 100 and status completed are the same thing; a running benchmark shows at most 99. */
  lemma HundredIffCompleted(s0: Service, es: seq<Event>)
    requires Fresh(s0)
    ensures Steps(s0, es).progress == 100.0 <==> Steps(s0, es).status == Completed
    ensures Steps(s0, es).status != Completed ==> 0.0 <= Steps(s0, es).progress <= 99.0
  {
    FreshInv(s0);
    FreshProgress(s0);
    RunProgress(s0, es);
  }
}
