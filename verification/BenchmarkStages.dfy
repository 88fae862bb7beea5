/**
 The stages of a benchmark run, as they show in its events: a run that gets as far as its last check has been
 through all five of them, in order and to the end; and one that is not doomed can still get there.
 */
module BenchmarkStages {
  import opened Options
  import opened Rounding
  import opened Benchmark
  import opened BenchmarkRuns

  // ---------------------------------------------------------------- what the events show

  /** A run enters a stage, or leaves it for what comes next, with the bytes written and read by then. */
  datatype Mark =
    | Entered(stage: Stage, at: real)
    | Left(stage: Stage, at: real, allDone: bool, written: nat, read: nat)

  const STAGES := [Single, Multi, Memory, Write, Read]

  function StageOf(pc: Pc): Option<Stage>
  {
    match pc
    case Top(stage) => Some(stage)
    case Check(stage) => Some(stage)
    case Work(stage) => Some(stage)
    case _ => None
  }

  /** What one step of a worker marks; breaking off marks nothing. */
  function MarksOf(before: Worker, after: Worker, i: Input): seq<Mark>
  {
    var a, b := StageOf(before.pc), StageOf(after.pc);
    if a == b || after.pc.Finish? then []
    else
      (if a.Some? then [Left(a.value, i.now, i.allDone, after.written, after.read)] else [])
      + if b.Some? then [Entered(b.value, i.now)] else []
  }

  function MarksIn(s: Service, e: Event, id: RunId): seq<Mark>
  {
    if Possible(s, e) && e.WorkerMoves? && e.worker == id && id in Step(s, e).workers then
      MarksOf(s.workers[id], Step(s, e).workers[id], e.input)
    else []
  }

  /** All marks of run id, in the order of the events. */
  function Trace(s0: Service, es: seq<Event>, id: RunId): seq<Mark>
  {
    if es == [] then []
    else
      var front := es[..|es| - 1];
      Trace(s0, front, id) + MarksIn(Steps(s0, front), es[|es| - 1], id)
  }

  // ---------------------------------------------------------------- having passed a stage

  /** The size of the file written and read: at least one chunk of at least 64 KiB. */
  function FileSize(c: Config): int
  {
    var chunk := if c.chunkBytes < 64 * 1024 then 64 * 1024 else c.chunkBytes;
    if c.fileBytes < chunk then chunk else c.fileBytes
  }

  /** A stage lasted at least this long, and never less than a hundredth of a second. */
  predicate Lasted(from: real, to: real, seconds: real)
  {
    to - from >= seconds && to - from >= 0.01
  }

  /** What leaving a stage takes. */
  predicate Through(c: Config, enter: Mark, leave: Mark, stage: Stage)
  {
    && enter.Entered? && leave.Left? && enter.stage == stage && leave.stage == stage && enter.at <= leave.at
    && match stage
       case Single => Lasted(enter.at, leave.at, c.singleSeconds)
       case Multi => leave.allDone
       case Memory => Lasted(enter.at, leave.at, c.memorySeconds)
       case Write => leave.written == FileSize(c) && leave.read == 0
       case Read => leave.written == FileSize(c) && leave.read == FileSize(c)
  }

  /** Exactly the first k stages were entered and left, one after the other. */
  ghost predicate Passed(c: Config, marks: seq<Mark>, k: nat)
    requires k <= 5
  {
    && |marks| == 2 * k
    && (forall j :: 0 <= j < k ==> Through(c, marks[2 * j], marks[2 * j + 1], STAGES[j]))
    && (forall j :: 0 <= j < k - 1 ==> marks[2 * j + 1].at <= marks[2 * j + 2].at)
  }

  function Position(stage: Stage): (k: nat)
    ensures k < 5 && STAGES[k] == stage
  {
    match stage
    case Single => 0
    case Multi => 1
    case Memory => 2
    case Write => 3
    case Read => 4
  }

  /** The byte counters fit the stage. */
  predicate CountersFit(c: Config, w: Worker, stage: Stage)
  {
    match stage
    case Write => w.written <= FileSize(c) && w.read == 0
    case Read => w.written == FileSize(c) && w.read <= FileSize(c)
    case _ => w.written == 0 && w.read == 0
  }

  /** Inside the write loop something is left to write. */
  predicate GoesOn(c: Config, w: Worker, stage: Stage)
  {
    stage.Write? ==> w.written < FileSize(c)
  }

  predicate NoLaterThan(marks: seq<Mark>, now: real)
  {
    forall j :: 0 <= j < |marks| ==> marks[j].at <= now
  }

  /** How the marks so far fit where the worker stands. */
  ghost predicate Fits(c: Config, w: Worker, marks: seq<Mark>)
  {
    match w.pc
    case CheckStart => marks == [] && CountersFit(c, w, Single)
    case Profile => marks == [] && CountersFit(c, w, Single)
    case Enter(stage) => Passed(c, marks, Position(stage)) && CountersFit(c, w, if stage.Read? then Read else Single)
                         && w.read == 0
    case AfterMulti => Passed(c, marks, 2) && CountersFit(c, w, Single)
    case Top(stage) => Within(c, w, marks, stage)
    case Check(stage) => Within(c, w, marks, stage) && GoesOn(c, w, stage)
    case Work(stage) => Within(c, w, marks, stage) && GoesOn(c, w, stage)
    case Finish(o) => o.Done? ==> Passed(c, marks, 5)
    case _ => Passed(c, marks, 5)
  }

  /** Inside a stage: those before it are passed, and it was entered when its clock was started. */
  ghost predicate Within(c: Config, w: Worker, marks: seq<Mark>, stage: Stage)
  {
    var k := Position(stage);
    && |marks| == 2 * k + 1 && Passed(c, marks[..2 * k], k) && marks[2 * k] == Entered(stage, w.stageStart)
    && (k > 0 ==> marks[2 * k - 1].at <= w.stageStart)
    && CountersFit(c, w, stage)
  }

  // ---------------------------------------------------------------- one step

  lemma SizesAgree(c: Config)
    ensures TotalSize(c) == FileSize(c) >= 65536
  {
  }

  lemma EntersNext(c: Config, w: Worker, marks: seq<Mark>, stage: Stage, now: real)
    requires w.pc == Enter(stage) && Fits(c, w, marks) && NoLaterThan(marks, now)
    ensures Within(c, w.(pc := Top(stage), stageStart := now), marks + [Entered(stage, now)], stage)
  {
    var k := Position(stage);
    assert (marks + [Entered(stage, now)])[..2 * k] == marks;
    hide Through;
  }

  lemma LeavesStage(c: Config, w: Worker, marks: seq<Mark>, stage: Stage, leave: Mark)
    requires Within(c, w, marks, stage) && leave.Left?
    requires Through(c, Entered(stage, w.stageStart), leave, stage)
    ensures Passed(c, marks + [leave], Position(stage) + 1)
  {
    var k := Position(stage);
    var more := marks + [leave];
    forall j | 0 <= j < k + 1 ensures Through(c, more[2 * j], more[2 * j + 1], STAGES[j]) {
      if j < k {
        assert Through(c, marks[..2 * k][2 * j], marks[..2 * k][2 * j + 1], STAGES[j]);
      } else {
        assert more[2 * j] == Entered(stage, w.stageStart) && more[2 * j + 1] == leave && STAGES[j] == stage;
      }
    }
    hide Through;
    forall j | 0 <= j < k ensures more[2 * j + 1].at <= more[2 * j + 2].at {
      if j < k - 1 {
        assert marks[..2 * k][2 * j + 1].at <= marks[..2 * k][2 * j + 2].at;
      } else {
        assert more[2 * j + 2] == Entered(stage, w.stageStart);
      }
    }
  }

  /** One step of the worker keeps its marks fitting. */
  ghost predicate StepFits(s: Service, id: RunId, i: Input, marks: seq<Mark>)
    requires id in s.workers
  {
    var s' := WorkerStep(s, id, i);
    id in s'.workers && Fits(s.config, s'.workers[id], marks + MarksOf(s.workers[id], s'.workers[id], i))
  }

  lemma LeaveFits(s: Service, id: RunId, stage: Stage, o: Outcome, unlinkOk: bool)
    requires id in s.workers && !o.Done?
    ensures var s' := Leave(s, id, stage, o, unlinkOk);
      id in s'.workers && s'.workers[id].pc.Finish? && !s'.workers[id].pc.outcome.Done?
  {
  }

  lemma EnterFits(s: Service, id: RunId, i: Input, stage: Stage, marks: seq<Mark>)
    requires id in s.workers && s.workers[id].pc == Enter(stage)
    requires Fits(s.config, s.workers[id], marks) && NoLaterThan(marks, i.now)
    ensures StepFits(s, id, i, marks)
  {
    EntersNext(s.config, s.workers[id], marks, stage, i.now);
    hide Passed, Within, Round, Clamp;
  }

  /** The loop of a stage is over: the stage has been gone through. */
  lemma OverIsThrough(c: Config, w: Worker, marks: seq<Mark>, stage: Stage, i: Input)
    requires Within(c, w, marks, stage) && i.now >= w.stageStart
    requires match stage
             case Multi => i.allDone
             case Write => w.written >= TotalSize(c)
             case Read => w.read >= TotalSize(c)
             case _ => i.now >= w.stageStart + Duration(c, stage)
    ensures Passed(c, marks + [Left(stage, i.now, i.allDone, w.written, w.read)], Position(stage) + 1)
  {
    SizesAgree(c);
    hide Passed, TotalSize;
    LeavesStage(c, w, marks, stage, Left(stage, i.now, i.allDone, w.written, w.read));
  }

  lemma TopFits(s: Service, id: RunId, i: Input, stage: Stage, marks: seq<Mark>)
    requires id in s.workers && s.workers[id].pc == Top(stage)
    requires Fits(s.config, s.workers[id], marks) && i.now >= s.workers[id].stageStart
    ensures StepFits(s, id, i, marks)
  {
    hide Passed, TotalSize, FileSize, Leave, Through, Duration;
    SizesAgree(s.config);
    var w := s.workers[id];
    assert marks + [] == marks;
    if LoopOver(s, w, stage, i) {
      if i.ok {
        OverIsThrough(s.config, w, marks, stage, i);
        var leave := Left(stage, i.now, i.allDone, w.written, w.read);
        assert [leave] + [] == [leave];
        FullyWritten(s.config, w, stage);
      } else {
        LeaveFits(s.(clock := i.now), id, stage, Failing, i.unlinkOk);
      }
    }
  }

  lemma FullyWritten(c: Config, w: Worker, stage: Stage)
    requires CountersFit(c, w, stage)
    ensures stage.Write? && w.written >= TotalSize(c) ==> w.written == FileSize(c)
  {
    SizesAgree(c);
    hide TotalSize, FileSize;
  }

  lemma CheckFits(s: Service, id: RunId, i: Input, stage: Stage, marks: seq<Mark>)
    requires id in s.workers && s.workers[id].pc == Check(stage) && Fits(s.config, s.workers[id], marks)
    ensures StepFits(s, id, i, marks)
  {
    assert marks + [] == marks;
    LeaveFits(s.(clock := i.now), id, stage, Cancelling, i.unlinkOk);
    hide Passed, Leave, FileSize;
  }

  lemma WorkFits(s: Service, id: RunId, i: Input, stage: Stage, marks: seq<Mark>)
    requires id in s.workers && s.workers[id].pc == Work(stage) && ReadPossible(s, s.workers[id], i)
    requires Fits(s.config, s.workers[id], marks) && i.now >= s.workers[id].stageStart
    ensures StepFits(s, id, i, marks)
  {
    hide Passed, TotalSize, FileSize, Leave, Through, Round, Clamp, Target, ChunkSize;
    var w := s.workers[id];
    SizesAgree(s.config);
    assert marks + [] == marks;
    if !i.ok {
      LeaveFits(s.(clock := i.now), id, stage, Failing, i.unlinkOk);
    } else if stage.Read? && w.read >= TotalSize(s.config) {
      OverIsThrough(s.config, w, marks, stage, i);
      var leave := Left(stage, i.now, i.allDone, w.written, w.read);
      assert [leave] + [] == [leave];
    }
  }

  lemma WorkerFits(s: Service, id: RunId, i: Input, marks: seq<Mark>)
    requires id in s.workers && !s.workers[id].pc.Finish? && ReadPossible(s, s.workers[id], i)
    requires Fits(s.config, s.workers[id], marks) && NoLaterThan(marks, i.now) && i.now >= s.workers[id].stageStart
    ensures StepFits(s, id, i, marks)
  {
    match s.workers[id].pc {
      case Enter(stage) => EnterFits(s, id, i, stage, marks);
      case Top(stage) => TopFits(s, id, i, stage, marks);
      case Check(stage) => CheckFits(s, id, i, stage, marks);
      case Work(stage) => WorkFits(s, id, i, stage, marks);
      case _ => OtherFits(s, id, i, marks);
    }
    hide WorkerStep, Fits;
  }

  lemma OtherFits(s: Service, id: RunId, i: Input, marks: seq<Mark>)
    requires id in s.workers && Fits(s.config, s.workers[id], marks)
    requires var pc := s.workers[id].pc;
      pc.CheckStart? || pc.Profile? || pc.AfterMulti? || pc.CheckFinal? || pc.Persist?
    ensures StepFits(s, id, i, marks)
  {
    assert marks + [] == marks;
    hide Through, Round, Clamp;
  }

  // ---------------------------------------------------------------- whole runs

  /** The marks of run id fit the state. */
  ghost predicate TraceFits(s: Service, id: RunId, marks: seq<Mark>)
  {
    && (id in s.workers ==>
          && Fits(s.config, s.workers[id], marks) && NoLaterThan(marks, s.clock)
          && s.workers[id].stageStart <= s.clock)
    && (id in s.ended && s.ended[id].Done? ==> Passed(s.config, marks, 5))
    && (id !in s.used ==> marks == [])
  }

  lemma FreshFits(s: Service, id: RunId)
    requires Fresh(s)
    ensures TraceFits(s, id, [])
  {
  }

  lemma MoveTraceFits(s: Service, id: RunId, i: Input, marks: seq<Mark>)
    requires Inv(s) && TraceFits(s, id, marks) && Possible(s, WorkerMoves(id, i)) && !s.workers[id].pc.Finish?
    ensures var s' := Step(s, WorkerMoves(id, i));
      TraceFits(s', id, marks + MarksIn(s, WorkerMoves(id, i), id)) && s'.config == s.config
  {
    EndedHaveNoWorker(s);
    WorkerFits(s, id, i, marks);
    WorkerMovesOn(s, id, i);
    ClockFollows(s, id, i);
    hide Inv, Fits, WorkerStep, OneWorker;
    assert id in s.used by { WorkerUsed(s, id); }
  }

  lemma WorkerUsed(s: Service, id: RunId)
    requires Inv(s) && id in s.workers
    ensures id in s.used
  {
    assert OneWorker(s) && IdsOk(s) && Known(s, id);
  }

  /** Which clock a service and its worker show. */
  predicate Clocked(s: Service, s': Service, id: RunId)
    requires id in s.workers
  {
    && s'.clock == s.clock && s'.config == s.config && id in s'.workers
    && (s'.workers[id].stageStart == s.workers[id].stageStart || s'.workers[id].stageStart == s.clock)
  }

  lemma LeaveDiskClock(s: Service, id: RunId, next: Pc, unlinkOk: bool)
    requires id in s.workers
    ensures Clocked(s, LeaveDisk(s, id, next, unlinkOk), id)
  {
  }

  lemma LeaveClock(s: Service, id: RunId, stage: Stage, o: Outcome, next: Pc, unlinkOk: bool)
    requires id in s.workers
    ensures Clocked(s, Leave(s, id, stage, o, unlinkOk), id) && Clocked(s, LeaveDisk(s, id, next, unlinkOk), id)
  {
    hide LeaveDisk;
    LeaveDiskClock(s, id, next, unlinkOk);
    LeaveDiskClock(s, id, Finish(o), unlinkOk);
  }

  lemma ClockFollows(s: Service, id: RunId, i: Input)
    requires id in s.workers && !s.workers[id].pc.Finish?
    ensures Clocked(s.(clock := i.now), WorkerStep(s, id, i), id)
  {
    hide Round, Clamp, Target, LoopOver, TotalSize, ChunkSize, Leave, LeaveDisk;
    var s1 := s.(clock := i.now);
    match s.workers[id].pc {
      case Enter(stage) => EnterClock(s1, id, stage, i);
      case Top(stage) => LeaveClock(s1, id, stage, Failing, CheckFinal, i.unlinkOk);
      case Check(stage) => LeaveClock(s1, id, stage, Cancelling, CheckFinal, i.unlinkOk);
      case Work(stage) => LeaveClock(s1, id, stage, Failing, CheckFinal, i.unlinkOk);
      case _ =>
    }
  }

  lemma EnterClock(s: Service, id: RunId, stage: Stage, i: Input)
    requires id in s.workers && s.clock == i.now
    ensures Clocked(s, EnterStage(s, id, stage, i), id)
  {
    hide Round, Clamp;
  }

  lemma FinishTraceFits(s: Service, id: RunId, i: Input, marks: seq<Mark>)
    requires TraceFits(s, id, marks) && Possible(s, WorkerMoves(id, i)) && s.workers[id].pc.Finish?
    ensures var s' := Step(s, WorkerMoves(id, i));
      TraceFits(s', id, marks + MarksIn(s, WorkerMoves(id, i), id)) && s'.config == s.config
  {
    hide Passed, Round;
    assert marks + [] == marks;
  }

  lemma OtherTraceFits(s: Service, e: Event, id: RunId, marks: seq<Mark>)
    requires Inv(s) && TraceFits(s, id, marks) && !(Possible(s, e) && e.WorkerMoves? && e.worker == id)
    ensures TraceFits(Step(s, e), id, marks + MarksIn(s, e, id)) && Step(s, e).config == s.config
  {
    assert marks + [] == marks;
    hide Passed;
    EndedHaveNoWorker(s);
    if Possible(s, e) && e.WorkerMoves? {
      assert id !in s.workers by { assert OneWorker(s); }
      hide Inv, IdsOk;
      if s.workers[e.worker].pc.Finish? {
        hide Round;
      } else {
        WorkerMovesOn(s, e.worker, e.input);
        hide OneWorker;
        ClockFollows(s, e.worker, e.input);
        hide WorkerStep;
      }
    }
  }

  lemma {:induction false} RunFits(s0: Service, es: seq<Event>, id: RunId)
    requires Fresh(s0)
    ensures TraceFits(Steps(s0, es), id, Trace(s0, es, id)) && Steps(s0, es).config == s0.config
  {
    hide Inv, Step, TraceFits, MarksIn, Possible;
    if es == [] {
      FreshFits(s0, id);
    } else {
      var front, e := es[..|es| - 1], es[|es| - 1];
      var s, marks := Steps(s0, front), Trace(s0, front, id);
      RunFits(s0, front, id);
      FreshInv(s0);
      RunKeeps(s0, front);
      if Possible(s, e) && e.WorkerMoves? && e.worker == id {
        MovesKnown(s, e);
        if s.workers[id].pc.Finish? {
          FinishTraceFits(s, id, e.input, marks);
        } else {
          MoveTraceFits(s, id, e.input, marks);
        }
      } else {
        OtherTraceFits(s, e, id, marks);
      }
    }
  }

  lemma MovesKnown(s: Service, e: Event)
    requires Possible(s, e) && e.WorkerMoves?
    ensures e.worker in s.workers && e == WorkerMoves(e.worker, e.input)
  {
  }

  /** Where a run stands that has completed, or has only its last check, its row and its end before it. */
  predicate BehindStages(s: Service, id: RunId)
  {
    || (id in s.ended && s.ended[id].Done?)
    || (id in s.workers && (s.workers[id].pc.CheckFinal? || PastAllChecks(s.workers[id].pc)))
  }

  /**
   Over all runs and interleavings: a run that has completed, or has come to its last check, has entered and
   left the single-thread, multi-thread, memory, write and read stages, in that order and no other. The timed
   ones lasted as long as configured, all tasks were done when the multi-thread stage was left, the file was
   written in full before it was read, and read in full.
   */
  lemma CompletedRunPassedAll(s0: Service, es: seq<Event>, id: RunId)
    requires Fresh(s0) && BehindStages(Steps(s0, es), id)
    ensures Passed(s0.config, Trace(s0, es, id), 5)
  {
    RunFits(s0, es, id);
    hide Passed, Steps, Trace;
    BehindFits(Steps(s0, es), id, Trace(s0, es, id));
  }

  lemma BehindFits(s: Service, id: RunId, marks: seq<Mark>)
    requires TraceFits(s, id, marks) && BehindStages(s, id)
    ensures Passed(s.config, marks, 5)
  {
    hide Passed;
  }

  // ---------------------------------------------------------------- after a cancel

  /** The units of work run id does in these events. */
  function WorkDone(s: Service, es: seq<Event>, id: RunId): nat
  {
    if es == [] then 0
    else
      var front, e := es[..|es| - 1], es[|es| - 1];
      WorkDone(s, front, id) + if WorksIn(Steps(s, front), e, id) then 1 else 0
  }

  /** In this event run id does one unit of work: one hash, one wait, one copy, one chunk or one block. */
  predicate WorksIn(s: Service, e: Event, id: RunId)
  {
    Possible(s, e) && e.WorkerMoves? && e.worker == id && s.workers[id].pc.Work?
  }

  /** The cancel stands for run id: it is set, or the run has stopped. */
  predicate CancelStands(s: Service, id: RunId)
  {
    id in s.used && (id in s.workers ==> s.cancelSet)
  }

  function AtWork(s: Service, id: RunId): nat
  {
    if id in s.workers && s.workers[id].pc.Work? then 1 else 0
  }

  lemma CancelledStep(s: Service, e: Event, id: RunId)
    requires Inv(s) && CancelStands(s, id)
    ensures CancelStands(Step(s, e), id)
    ensures AtWork(Step(s, e), id) + (if WorksIn(s, e, id) then 1 else 0) <= AtWork(s, id)
  {
    EndedHaveNoWorker(s);
    hide Inv, IdsOk;
    if Possible(s, e) && e.WorkerMoves? {
      if s.workers[e.worker].pc.Finish? {
        hide Round;
      } else {
        WorkerMovesOn(s, e.worker, e.input);
        if e.worker == id {
          CancelledMove(s, id, e.input);
        }
        hide WorkerStep;
      }
    }
  }

  lemma CancelledMove(s: Service, id: RunId, i: Input)
    requires id in s.workers && s.cancelSet && !s.workers[id].pc.Finish?
    ensures AtWork(WorkerStep(s, id, i), id) == 0
  {
    hide Round, Clamp, Target, LoopOver, TotalSize, ChunkSize;
  }

  lemma {:induction false} CancelledRun(s: Service, es: seq<Event>, id: RunId)
    requires Inv(s) && CancelStands(s, id)
    ensures CancelStands(Steps(s, es), id)
    ensures WorkDone(s, es, id) + AtWork(Steps(s, es), id) <= AtWork(s, id)
  {
    hide Inv, Step, CancelStands, AtWork, WorksIn;
    if es != [] {
      CancelledRun(s, es[..|es| - 1], id);
      RunKeeps(s, es[..|es| - 1]);
      CancelledStep(Steps(s, es[..|es| - 1]), es[|es| - 1], id);
    }
  }

  /** A cancelled run does at most the one unit of work it was about to do, whatever happens afterwards. */
  lemma CancelStopsWork(s0: Service, before: seq<Event>, after: seq<Event>, id: RunId)
    requires Fresh(s0) && id in Steps(s0, before).workers
    ensures WorkDone(Step(Steps(s0, before), CancelCalled), after, id) <= 1
  {
    FreshInv(s0);
    RunKeeps(s0, before);
    var s := Steps(s0, before);
    StepKeeps(s, CancelCalled);
    WorkerUsed(s, id);
    assert OneWorker(s);
    CancelledRun(Step(s, CancelCalled), after, id);
  }
}
