/**
 What holds of the benchmark service in every interleaving of API calls and worker steps.
 */
module BenchmarkRuns {
  import opened Options
  import opened Rounding
  import opened Benchmark

  // ---------------------------------------------------------------- the invariant

  /** The row run `id` has stored, as its position or its outcome tells. */
  function Stored(s: Service, id: RunId): Option<RowId>
  {
    if id in s.ended && s.ended[id].Done? then Some(s.ended[id].row)
    else if id in s.workers && s.workers[id].pc.Finish? && s.workers[id].pc.outcome.Done? then
      Some(s.workers[id].pc.outcome.row)
    else None
  }

  predicate Known(s: Service, id: RunId)
  {
    id in s.ended || s.run == Some(id)
  }

  ghost predicate RowsOk(s: Service, id: RunId)
  {
    forall r :: r in s.rows && s.rows[r] == id <==> Stored(s, id) == Some(r)
  }

  /** Is a worker at this point holding a temporary file? */
  predicate HoldsFile(pc: Pc)
  {
    match pc
    case Top(stage) => stage.Write? || stage.Read?
    case Check(stage) => stage.Write? || stage.Read?
    case Work(stage) => stage.Write? || stage.Read?
    case Enter(stage) => stage.Read?
    case _ => false
  }

  ghost predicate FilesOk(s: Service, id: RunId)
  {
    && (id in s.tempFiles <==> id in s.cleanupFailed || (id in s.workers && HoldsFile(s.workers[id].pc)))
    && (id in s.cleanupFailed ==>
          || (id in s.ended && s.ended[id].Failing?)
          || (id in s.workers && s.workers[id].pc == Finish(Failing)))
  }

  /** At most one worker, and it works for the current run. */
  ghost predicate OneWorker(s: Service)
  {
    forall id :: id in s.workers ==> s.status == Running && s.run == Some(id)
  }

  ghost predicate IdsOk(s: Service)
  {
    && (forall id :: Known(s, id) ==> id in s.used)
    && (forall r :: r in s.rows ==> s.rows[r] in s.used)
    && (forall id :: id in s.tempFiles || id in s.cleanupFailed ==> id in s.used)
    && (s.status == Running ==> s.run.Some? && s.run.value !in s.ended)
  }

  /** The status shown is that of the current run's end. */
  ghost predicate StatusOk(s: Service)
  {
    match s.status
    case Idle => s.run == None
    case Running => s.resultId == None
    case _ =>
      && s.run.Some? && s.run.value in s.ended
      && s.status == StatusOf(s.ended[s.run.value])
      && s.resultId == (if s.ended[s.run.value].Done? then Some(s.ended[s.run.value].row) else None)
  }

  ghost predicate Inv(s: Service)
  {
    && OneWorker(s) && IdsOk(s) && StatusOk(s)
    && (forall id :: Known(s, id) ==> RowsOk(s, id))
    && (forall id :: FilesOk(s, id))
  }

  // ---------------------------------------------------------------- one step

  /** A step that only moves the worker, between points that hold the same file and stand for no stored row. */
  lemma MoveKeeps(s: Service, id: RunId, w: Worker, progress: real, clock: real)
    requires Inv(s) && id in s.workers
    requires HoldsFile(w.pc) == HoldsFile(s.workers[id].pc)
    requires !s.workers[id].pc.Finish? && !(w.pc.Finish? && w.pc.outcome.Done?)
    ensures Inv(s.(workers := s.workers[id := w], progress := progress, clock := clock))
  {
    var s' := s.(workers := s.workers[id := w], progress := progress, clock := clock);
    assert s.run == Some(id);
    forall k | Known(s', k) ensures RowsOk(s', k) {
      assert Known(s, k) && RowsOk(s, k) && Stored(s', k) == Stored(s, k);
    }
    forall k ensures FilesOk(s', k) {
      assert FilesOk(s, k);
    }
  }

  lemma UpdateKeeps(s: Service, target: real)
    requires Inv(s)
    ensures Inv(Update(s, target))
  {
    hide Round, Clamp;
    var s' := Update(s, target);
    forall k | Known(s', k) ensures RowsOk(s', k) {
      assert Known(s, k) && RowsOk(s, k) && Stored(s', k) == Stored(s, k);
    }
    forall k ensures FilesOk(s', k) {
      assert FilesOk(s, k);
    }
  }

  /** The temporary file comes into being. */
  lemma FileKeeps(s: Service, id: RunId, w: Worker, progress: real, clock: real)
    requires Inv(s) && id in s.workers
    requires !HoldsFile(s.workers[id].pc) && HoldsFile(w.pc) && s.workers[id].pc.Enter?
    ensures Inv(s.(workers := s.workers[id := w], tempFiles := s.tempFiles + {id},
                   progress := progress, clock := clock))
  {
    var s' := s.(workers := s.workers[id := w], tempFiles := s.tempFiles + {id}, progress := progress, clock := clock);
    assert s.run == Some(id);
    forall k | Known(s', k) ensures RowsOk(s', k) {
      assert Known(s, k) && RowsOk(s, k) && Stored(s', k) == Stored(s, k);
    }
    forall k ensures FilesOk(s', k) {
      assert FilesOk(s, k);
    }
  }

  /** The temporary file goes, or cannot be removed and the run fails. */
  lemma LeaveDiskKeeps(s: Service, id: RunId, next: Pc, unlinkOk: bool, clock: real)
    requires Inv(s) && id in s.workers
    requires HoldsFile(s.workers[id].pc)
    requires !HoldsFile(next) && !(next.Finish? && next.outcome.Done?)
    ensures Inv(LeaveDisk(s.(clock := clock), id, next, unlinkOk))
  {
    var s' := LeaveDisk(s.(clock := clock), id, next, unlinkOk);
    assert FilesOk(s, id);
    assert s.run == Some(id);
    forall k | Known(s', k) ensures RowsOk(s', k) {
      assert Known(s, k) && RowsOk(s, k) && Stored(s', k) == Stored(s, k);
    }
    forall k ensures FilesOk(s', k) {
      assert FilesOk(s, k);
    }
  }

  lemma PersistKeeps(s: Service, id: RunId, row: RowId, clock: real)
    requires Inv(s) && id in s.workers && s.workers[id].pc == Persist && row !in s.rows
    ensures Inv(Goto(s.(clock := clock, rows := s.rows[row := id]), id, Finish(Done(row))))
  {
    var s' := Goto(s.(clock := clock, rows := s.rows[row := id]), id, Finish(Done(row)));
    assert s.run == Some(id) && id !in s.ended;
    forall k | Known(s', k) ensures RowsOk(s', k) {
      assert Known(s, k) && RowsOk(s, k);
      assert k != id ==> Stored(s', k) == Stored(s, k);
    }
    forall k ensures FilesOk(s', k) {
      assert FilesOk(s, k);
    }
  }

  lemma FinishKeeps(s: Service, id: RunId, o: Outcome, clock: real)
    requires Inv(s) && id in s.workers && s.workers[id].pc == Finish(o)
    ensures Inv(FinishRun(s.(clock := clock), id, o))
  {
    hide Round;
    var s' := FinishRun(s.(clock := clock), id, o);
    assert s.run == Some(id) && id !in s.ended;
    forall k | Known(s', k) ensures RowsOk(s', k) {
      assert Known(s, k) && RowsOk(s, k) && Stored(s', k) == Stored(s, k);
    }
    forall k ensures FilesOk(s', k) {
      assert FilesOk(s, k);
    }
  }

  lemma StartKeeps(s: Service, id: RunId, threadStarts: bool, now: real)
    requires Inv(s) && id !in s.used
    ensures Inv(Start(s, id, threadStarts, now).0)
  {
    var s' := Start(s, id, threadStarts, now).0;
    if s.status != Running {
      assert s.workers == map[];
      forall k | Known(s', k) ensures RowsOk(s', k) {
        if k == id {
          assert Stored(s', id) == None;
        } else {
          assert Known(s, k) && RowsOk(s, k) && Stored(s', k) == Stored(s, k);
        }
      }
      forall k ensures FilesOk(s', k) {
        assert FilesOk(s, k);
      }
    }
  }

  lemma CancelKeeps(s: Service)
    requires Inv(s)
    ensures Inv(Cancel(s).0)
  {
    var s' := Cancel(s).0;
    forall k | Known(s', k) ensures RowsOk(s', k) {
      assert Known(s, k) && RowsOk(s, k) && Stored(s', k) == Stored(s, k);
    }
    forall k ensures FilesOk(s', k) {
      assert FilesOk(s, k);
    }
  }

  lemma WorkerKeeps(s: Service, id: RunId, i: Input)
    requires Inv(s) && id in s.workers && i.row !in s.rows
    ensures Inv(WorkerStep(s, id, i))
  {
    var w := s.workers[id];
    var s1 := s.(clock := i.now);
    assert OneWorker(s) && s.status == Running && s.run == Some(id) && FilesOk(s, id);
    assert id in s.tempFiles || !HoldsFile(w.pc);
    hide Inv, Round, Target, Clamp, FilesOk;
    match w.pc {
      case CheckStart =>
        MoveKeeps(s, id, w.(pc := if s.cancelSet then Finish(Cancelling) else Profile), s.progress, i.now);
      case Profile =>
        MoveKeeps(s, id, w.(pc := if i.ok then Enter(Single) else Finish(Failing)), Update(s1, 1.0).progress, i.now);
      case Enter(stage) => EnterKeeps(s, id, stage, i);
      case Top(stage) => TopKeeps(s, id, stage, i);
      case Check(stage) =>
        if s.cancelSet {
          LeaveKeeps(s, id, stage, Cancelling, i);
        } else {
          MoveKeeps(s, id, w.(pc := Work(stage)), s.progress, i.now);
        }
      case Work(stage) => WorkKeeps(s, id, stage, i);
      case AfterMulti =>
        MoveKeeps(s, id, w.(pc := if s.cancelSet then Finish(Cancelling) else Enter(Memory)), s.progress, i.now);
      case CheckFinal =>
        MoveKeeps(s, id, w.(pc := if s.cancelSet then Finish(Cancelling) else Persist), s.progress, i.now);
      case Persist =>
        if i.ok {
          PersistKeeps(s, id, i.row, i.now);
        } else {
          MoveKeeps(s, id, w.(pc := Finish(Failing)), s.progress, i.now);
        }
      case Finish(o) => FinishKeeps(s, id, o, i.now);
    }
  }

  lemma LeaveKeeps(s: Service, id: RunId, stage: Stage, o: Outcome, i: Input)
    requires Inv(s) && id in s.workers && !o.Done?
    requires s.workers[id].pc == Top(stage) || s.workers[id].pc == Check(stage) || s.workers[id].pc == Work(stage)
    ensures Inv(Leave(s.(clock := i.now), id, stage, o, i.unlinkOk))
  {
    hide Inv;
    if stage.Write? || stage.Read? {
      LeaveDiskKeeps(s, id, Finish(o), i.unlinkOk, i.now);
    } else {
      MoveKeeps(s, id, s.workers[id].(pc := Finish(o)), s.progress, i.now);
    }
  }

  lemma EnterKeeps(s: Service, id: RunId, stage: Stage, i: Input)
    requires Inv(s) && id in s.workers && s.workers[id].pc == Enter(stage) && s.status == Running
    ensures Inv(EnterStage(s.(clock := i.now), id, stage, i))
  {
    hide Inv, Round, Clamp;
    var w := s.workers[id];
    var progress := Update(s, Base(stage) as real).progress;
    if !i.ok && stage.Read? {
      UpdateKeeps(s, Base(stage) as real);
      LeaveDiskKeeps(Update(s, Base(stage) as real), id, Finish(Failing), i.unlinkOk, i.now);
    } else if !i.ok && !stage.Single? {
      MoveKeeps(s, id, w.(pc := Finish(Failing)), progress, i.now);
    } else if stage.Write? {
      FileKeeps(s, id, w.(pc := Top(stage), stageStart := i.now), progress, i.now);
    } else {
      MoveKeeps(s, id, w.(pc := Top(stage), stageStart := i.now), progress, i.now);
    }
  }

  lemma TopKeeps(s: Service, id: RunId, stage: Stage, i: Input)
    requires Inv(s) && id in s.workers && s.workers[id].pc == Top(stage)
    ensures Inv(AtTop(s.(clock := i.now), id, stage, i))
  {
    hide Inv;
    var w := s.workers[id];
    if !LoopOver(s, w, stage, i) {
      MoveKeeps(s, id, w.(pc := Check(stage)), s.progress, i.now);
    } else if !i.ok {
      LeaveKeeps(s, id, stage, Failing, i);
    } else {
      assert !stage.Read?;
      MoveKeeps(s, id, w.(pc := StageAfter(stage)), s.progress, i.now);
    }
  }

  lemma WorkKeeps(s: Service, id: RunId, stage: Stage, i: Input)
    requires Inv(s) && id in s.workers && s.workers[id].pc == Work(stage) && s.status == Running
    ensures Inv(DoWork(s.(clock := i.now), id, stage, i))
  {
    hide Inv, Round, Clamp, Target;
    var w := s.workers[id];
    if !i.ok {
      LeaveKeeps(s, id, stage, Failing, i);
    } else if stage.Read? && w.read >= TotalSize(s.config) {
      LeaveDiskKeeps(s, id, CheckFinal, i.unlinkOk, i.now);
    } else {
      var s' := DoWork(s.(clock := i.now), id, stage, i);
      MoveKeeps(s, id, s'.workers[id], s'.progress, i.now);
    }
  }

  /** Every step keeps the invariant. */
  lemma StepKeeps(s: Service, e: Event)
    requires Inv(s)
    ensures Inv(Step(s, e))
  {
    hide Inv, Start, Cancel, WorkerStep;
    if Possible(s, e) {
      match e {
        case StartCalled(id, threadStarts, at) => StartKeeps(s, id, threadStarts, at);
        case CancelCalled => CancelKeeps(s);
        case WorkerMoves(id, i) => WorkerKeeps(s, id, i);
      }
    }
  }

  lemma {:induction false} RunKeeps(s: Service, es: seq<Event>)
    requires Inv(s)
    ensures Inv(Steps(s, es))
  {
    hide Inv, Step;
    if es != [] {
      RunKeeps(s, es[..|es| - 1]);
      StepKeeps(Steps(s, es[..|es| - 1]), es[|es| - 1]);
    }
  }

  lemma FreshInv(s: Service)
    requires Fresh(s)
    ensures Inv(s)
  {
  }

  // ---------------------------------------------------------------- consequences for whole runs

  /** Never two workers; the one there is works for the run the status names. */
  lemma AtMostOneWorker(s0: Service, es: seq<Event>, id: RunId, other: RunId)
    requires Fresh(s0)
    requires id in Steps(s0, es).workers && other in Steps(s0, es).workers
    ensures id == other && Steps(s0, es).run == Some(id) && Steps(s0, es).status == Running
  {
    FreshInv(s0);
    RunKeeps(s0, es);
  }

  /** A run that ended completed has exactly one row, the one it names; any other end leaves none. */
  lemma EndedRunRows(s0: Service, es: seq<Event>, id: RunId)
    requires Fresh(s0)
    requires id in Steps(s0, es).ended
    ensures var s := Steps(s0, es);
      forall r :: r in s.rows && s.rows[r] == id <==> s.ended[id] == Done(r)
  {
    FreshInv(s0);
    RunKeeps(s0, es);
    hide Steps;
    var s := Steps(s0, es);
    assert Known(s, id) && RowsOk(s, id);
    assert Stored(s, id) == None ==> !s.ended[id].Done? by {
      assert OneWorker(s) && IdsOk(s);
    }
  }

  /** A completed status names a row of the current run, the only one that run has. */
  lemma CompletedNamesItsRow(s0: Service, es: seq<Event>)
    requires Fresh(s0) && Steps(s0, es).status == Completed
    ensures var s := Steps(s0, es);
      && s.run.Some? && s.resultId.Some?
      && forall r :: r in s.rows && s.rows[r] == s.run.value <==> r == s.resultId.value
  {
    FreshInv(s0);
    RunKeeps(s0, es);
    EndedRunRows(s0, es, Steps(s0, es).run.value);
  }

  /** On every exit the temporary file is gone, unless removing it failed; and then the run has failed. */
  lemma TempFileGone(s0: Service, es: seq<Event>, id: RunId)
    requires Fresh(s0)
    requires id in Steps(s0, es).ended
    ensures var s := Steps(s0, es);
      && (id in s.tempFiles <==> id in s.cleanupFailed)
      && (id in s.cleanupFailed ==> s.ended[id].Failing?)
  {
    FreshInv(s0);
    RunKeeps(s0, es);
    hide Steps;
    var s := Steps(s0, es);
    assert FilesOk(s, id) && OneWorker(s) && IdsOk(s);
  }

  /**
   A worker that is leaving the disk stage, cancelled in the write loop or done with the read loop, whose
   temporary file cannot be removed: the run fails and the file stays.
   */
  predicate LeavingDisk(s: Service, id: RunId)
  {
    && id in s.workers && id in s.tempFiles
    && var w := s.workers[id];
       (w.pc == Check(Write) && s.cancelSet) || (w.pc == Work(Read) && w.read >= TotalSize(s.config))
  }

  lemma FailingUnlinkFailsRun(s: Service, id: RunId, i: Input, last: Input)
    requires Inv(s) && LeavingDisk(s, id)
    requires Possible(s, WorkerMoves(id, i)) && i.ok && !i.unlinkOk
    requires Possible(Step(s, WorkerMoves(id, i)), WorkerMoves(id, last))
    ensures var left := Step(s, WorkerMoves(id, i));
      && id in left.workers && left.workers[id].pc == Finish(Failing)
      && var after := Step(left, WorkerMoves(id, last));
      && id in after.ended && after.ended[id] == Failing && after.status == Failed
      && id in after.tempFiles && id in after.cleanupFailed
  {
    assert OneWorker(s);
    hide Inv, Round;
  }

  /** The same two workers, had the file gone: the one ends cancelled, the other goes on. */
  lemma WorkingUnlinkGoesOn(s: Service, id: RunId, i: Input)
    requires LeavingDisk(s, id) && Possible(s, WorkerMoves(id, i)) && i.ok && i.unlinkOk
    ensures var left := Step(s, WorkerMoves(id, i));
      && id in left.workers && id !in left.tempFiles
      && left.workers[id].pc == if s.workers[id].pc == Check(Write) then Finish(Cancelling) else CheckFinal
  {
  }

  // ---------------------------------------------------------------- cancellation

  predicate BeforeLastCheck(pc: Pc)
  {
    !pc.Persist? && !pc.Finish?
  }

  /** The run has been cancelled in time: it cannot complete any more. */
  predicate Doomed(s: Service, id: RunId)
  {
    || (id in s.ended && !s.ended[id].Done?)
    || (id in s.workers && BeforeLastCheck(s.workers[id].pc) && s.cancelSet)
    || (id in s.workers && s.workers[id].pc.Finish? && !s.workers[id].pc.outcome.Done?)
  }

  /** The run is past its last check: it cannot end cancelled any more. */
  predicate Escaped(s: Service, id: RunId)
  {
    || (id in s.ended && !s.ended[id].Cancelling?)
    || (id in s.workers && s.workers[id].pc.Persist?)
    || (id in s.workers && s.workers[id].pc.Finish? && !s.workers[id].pc.outcome.Cancelling?)
  }

  /** Where a worker can stand one step later. */
  predicate Successor(cancelSet: bool, pc: Pc, next: Pc)
  {
    if pc.Persist? then next.Finish? && !next.outcome.Cancelling?
    else
      || BeforeLastCheck(next)
      || (next.Persist? && !cancelSet)
      || (next.Finish? && !next.outcome.Done?)
  }

  /** s' differs from s, for the API, at most in progress; worker id has moved. */
  predicate Moved(s: Service, s': Service, id: RunId)
  {
    && s'.used == s.used && s'.ended == s.ended && s'.run == s.run
    && s'.status == s.status && s'.cancelSet == s.cancelSet
    && id in s'.workers && id in s.workers
    && s'.workers == s.workers[id := s'.workers[id]]
    && Successor(s.cancelSet, s.workers[id].pc, s'.workers[id].pc)
  }

  lemma LeaveMoves(s: Service, id: RunId, stage: Stage, o: Outcome, unlinkOk: bool)
    requires id in s.workers && BeforeLastCheck(s.workers[id].pc) && !o.Done?
    ensures Moved(s, Leave(s, id, stage, o, unlinkOk), id)
  {
  }

  lemma EnterMoves(s: Service, id: RunId, stage: Stage, i: Input)
    requires id in s.workers && BeforeLastCheck(s.workers[id].pc)
    ensures Moved(s, EnterStage(s, id, stage, i), id)
  {
    hide Round, Clamp, LeaveDisk;
    LeaveDiskMoves(Update(s, Base(stage) as real), id, Finish(Failing), i.unlinkOk);
  }

  lemma TopMoves(s: Service, id: RunId, stage: Stage, i: Input)
    requires id in s.workers && BeforeLastCheck(s.workers[id].pc)
    ensures Moved(s, AtTop(s, id, stage, i), id)
  {
    hide LoopOver, Leave;
    LeaveMoves(s, id, stage, Failing, i.unlinkOk);
  }

  lemma WorkMoves(s: Service, id: RunId, stage: Stage, i: Input)
    requires id in s.workers && BeforeLastCheck(s.workers[id].pc)
    ensures Moved(s, DoWork(s, id, stage, i), id)
  {
    hide Round, Clamp, Target, TotalSize, ChunkSize, Leave, LeaveDisk;
    LeaveMoves(s, id, stage, Failing, i.unlinkOk);
    if stage.Read? {
      LeaveDiskMoves(s, id, CheckFinal, i.unlinkOk);
    }
  }

  lemma LeaveDiskMoves(s: Service, id: RunId, next: Pc, unlinkOk: bool)
    requires id in s.workers && BeforeLastCheck(s.workers[id].pc)
    requires next == CheckFinal || next == Finish(Failing)
    ensures Moved(s, LeaveDisk(s, id, next, unlinkOk), id)
  {
  }

  /** A worker step short of the finish moves that worker and nothing else the API can see but progress. */
  lemma WorkerMovesOn(s: Service, id: RunId, i: Input)
    requires id in s.workers && !s.workers[id].pc.Finish?
    ensures Moved(s, WorkerStep(s, id, i), id)
  {
    hide Round, Clamp, EnterStage, AtTop, DoWork, Leave;
    var s1 := s.(clock := i.now);
    match s.workers[id].pc {
      case Enter(stage) => EnterMoves(s1, id, stage, i);
      case Top(stage) => TopMoves(s1, id, stage, i);
      case Check(stage) => LeaveMoves(s1, id, stage, Cancelling, i.unlinkOk);
      case Work(stage) => WorkMoves(s1, id, stage, i);
      case _ =>
    }
  }

  lemma VerdictStays(s: Service, e: Event, id: RunId)
    requires OneWorker(s) && IdsOk(s)
    requires forall k :: k in s.ended ==> k !in s.workers
    ensures Doomed(s, id) ==> Doomed(Step(s, e), id)
    ensures Escaped(s, id) ==> Escaped(Step(s, e), id)
  {
    if Possible(s, e) && e.WorkerMoves? {
      hide IdsOk;
      if !s.workers[e.worker].pc.Finish? {
        WorkerMovesOn(s, e.worker, e.input);
        hide WorkerStep;
      } else {
        hide Round;
      }
    }
  }

  lemma EndedHaveNoWorker(s: Service)
    requires Inv(s)
    ensures OneWorker(s) && IdsOk(s) && forall k :: k in s.ended ==> k !in s.workers
  {
  }

  lemma {:induction false} VerdictStaysOverRuns(s: Service, es: seq<Event>, id: RunId)
    requires Inv(s)
    ensures Doomed(s, id) ==> Doomed(Steps(s, es), id)
    ensures Escaped(s, id) ==> Escaped(Steps(s, es), id)
  {
    hide Inv, Step, Doomed, Escaped;
    if es != [] {
      VerdictStaysOverRuns(s, es[..|es| - 1], id);
      RunKeeps(s, es[..|es| - 1]);
      EndedHaveNoWorker(Steps(s, es[..|es| - 1]));
      VerdictStays(Steps(s, es[..|es| - 1]), es[|es| - 1], id);
    }
  }

  /** A cancel that comes before the last check: the run never completes and never stores a row. */
  lemma CancelInTimeNeverCompletes(s0: Service, before: seq<Event>, after: seq<Event>, id: RunId)
    requires Fresh(s0)
    requires id in Steps(s0, before).workers && BeforeLastCheck(Steps(s0, before).workers[id].pc)
    ensures var s := Steps(Step(Steps(s0, before), CancelCalled), after);
      && (id in s.ended ==> !s.ended[id].Done?)
      && (s.run == Some(id) ==> s.status != Completed)
      && forall r :: r in s.rows ==> s.rows[r] != id
  {
    FreshInv(s0);
    RunKeeps(s0, before);
    var s1 := Steps(s0, before);
    var s2 := Step(s1, CancelCalled);
    StepKeeps(s1, CancelCalled);
    assert Doomed(s2, id);
    VerdictStaysOverRuns(s2, after, id);
    RunKeeps(s2, after);
    KnownStays(s2, after, id);
    hide Steps, Step;
    var s := Steps(s2, after);
    assert RowsOk(s, id);
    EndedHaveNoWorker(s);
  }

  /** A run once known stays known. */
  lemma {:induction false} KnownStays(s: Service, es: seq<Event>, id: RunId)
    requires Inv(s) && (id in s.workers || id in s.ended)
    ensures Known(Steps(s, es), id)
    ensures id in Steps(s, es).workers || id in Steps(s, es).ended
  {
    hide Inv, Step;
    assert Known(s, id) by { EndedHaveNoWorker(s); }
    if es != [] {
      var s1 := Steps(s, es[..|es| - 1]);
      KnownStays(s, es[..|es| - 1], id);
      RunKeeps(s, es[..|es| - 1]);
      EndedHaveNoWorker(s1);
      KnownStep(s1, es[|es| - 1], id);
      StepKeeps(s1, es[|es| - 1]);
      EndedHaveNoWorker(Step(s1, es[|es| - 1]));
    }
  }

  lemma KnownStep(s: Service, e: Event, id: RunId)
    requires OneWorker(s) && (id in s.workers || id in s.ended)
    ensures id in Step(s, e).workers || id in Step(s, e).ended
  {
    if Possible(s, e) && e.WorkerMoves? {
      if !s.workers[e.worker].pc.Finish? {
        WorkerMovesOn(s, e.worker, e.input);
        hide WorkerStep;
      } else {
        hide Round;
      }
    }
  }

  /** A worker on its way to ending cancelled. */
  predicate EndsCancelled(pc: Pc)
  {
    pc.Finish? && pc.outcome.Cancelling?
  }

  /**
   A cancel that comes after the last check, unless the run is ending cancelled already: it is accepted,
   and the run does not end cancelled.
   */
  lemma LateCancelIsIgnored(s0: Service, before: seq<Event>, after: seq<Event>, id: RunId)
    requires Fresh(s0) && id in Steps(s0, before).workers
    requires var pc := Steps(s0, before).workers[id].pc; !BeforeLastCheck(pc) && !EndsCancelled(pc)
    ensures Cancel(Steps(s0, before)).1
    ensures var s := Steps(Step(Steps(s0, before), CancelCalled), after);
      id in s.ended ==> !s.ended[id].Cancelling?
  {
    FreshInv(s0);
    RunKeeps(s0, before);
    var s1 := Steps(s0, before);
    var s2 := Step(s1, CancelCalled);
    StepKeeps(s1, CancelCalled);
    assert Escaped(s2, id);
    VerdictStaysOverRuns(s2, after, id);
    RunKeeps(s2, after);
    EndedHaveNoWorker(Steps(s2, after));
  }

  /** Some continuation of the cancelled run lets it complete. */
  ghost predicate MayComplete(s: Service, id: RunId)
  {
    exists after :: CompletesBy(s, after, id)
  }

  ghost predicate CompletesBy(s: Service, after: seq<Event>, id: RunId)
  {
    id in Steps(s, after).ended && Steps(s, after).ended[id].Done?
  }

  /** Where a worker stands that has passed its last check and met no failure. */
  predicate PastAllChecks(pc: Pc)
  {
    pc.Persist? || (pc.Finish? && pc.outcome.Done?)
  }

  /**
   A cancel is accepted as long as the run has not ended, and the run can still complete after it exactly
   when the cancel came after the last check and no failure or cancellation had been met.
   */
  lemma CancelStopsExactly(s0: Service, before: seq<Event>, id: RunId)
    requires Fresh(s0) && id in Steps(s0, before).workers
    ensures Cancel(Steps(s0, before)).1
    ensures MayComplete(Step(Steps(s0, before), CancelCalled), id)
       <==> PastAllChecks(Steps(s0, before).workers[id].pc)
  {
    FreshInv(s0);
    RunKeeps(s0, before);
    var s := Steps(s0, before);
    assert s.status == Running;
    if PastAllChecks(s.workers[id].pc) {
      StillCompletes(Step(s, CancelCalled), id);
    } else {
      StepKeeps(s, CancelCalled);
      assert Doomed(Step(s, CancelCalled), id);
      hide Steps, Step, Doomed;
      forall after ensures !CompletesBy(Step(s, CancelCalled), after, id) {
        DoomedNeverCompletes(Step(s, CancelCalled), after, id);
      }
    }
  }

  lemma DoomedNeverCompletes(s: Service, after: seq<Event>, id: RunId)
    requires Inv(s) && Doomed(s, id)
    ensures !CompletesBy(s, after, id)
  {
    VerdictStaysOverRuns(s, after, id);
    RunKeeps(s, after);
    EndedHaveNoWorker(Steps(s, after));
    hide Steps;
  }

  lemma StillCompletes(s: Service, id: RunId)
    requires id in s.workers && PastAllChecks(s.workers[id].pc)
    ensures MayComplete(s, id)
  {
    var row := NewRow(s.rows.Keys);
    var move := WorkerMoves(id, Input(s.clock, true, 0, true, row, true));
    if s.workers[id].pc.Persist? {
      var stored := Step(s, move);
      PersistStores(s, id, row);
      var next := NewRow(stored.rows.Keys);
      var last := WorkerMoves(id, Input(stored.clock, true, 0, true, next, true));
      FinishCompletes(stored, id, next);
      hide Step, Steps;
      StepsTwo(s, move, last);
      assert CompletesBy(s, [move, last], id);
    } else {
      FinishCompletes(s, id, row);
      hide Step, Steps;
      StepsOne(s, move);
      assert CompletesBy(s, [move], id);
    }
  }

  lemma PersistStores(s: Service, id: RunId, row: RowId)
    requires id in s.workers && s.workers[id].pc.Persist? && row !in s.rows
    ensures var after := Step(s, WorkerMoves(id, Input(s.clock, true, 0, true, row, true)));
      id in after.workers && after.workers[id].pc == Finish(Done(row))
  {
  }

  lemma FinishCompletes(s: Service, id: RunId, row: RowId)
    requires id in s.workers && s.workers[id].pc.Finish? && s.workers[id].pc.outcome.Done? && row !in s.rows
    ensures var after := Step(s, WorkerMoves(id, Input(s.clock, true, 0, true, row, true)));
      id in after.ended && after.ended[id].Done?
  {
    hide Round;
  }

  lemma StepsOne(s: Service, e: Event)
    ensures Steps(s, [e]) == Step(s, e)
  {
    hide Step;
    assert [e][..0] == [] && Steps(s, []) == s;
  }

  lemma StepsTwo(s: Service, e: Event, e': Event)
    ensures Steps(s, [e, e']) == Step(Step(s, e), e')
  {
    hide Step;
    StepsOne(s, e);
    assert [e, e'][..1] == [e];
  }

  /** There is always a row id not in use. */
  lemma {:induction false} NewRow(used: set<RowId>) returns (r: RowId)
    ensures forall x :: x in used ==> x < r
    decreases |used|
  {
    r := 0;
    if used != {} {
      var x :| x in used;
      var rest := NewRow(used - {x});
      assert used == (used - {x}) + {x};
      r := if x < rest then rest else x + 1;
    }
  }

  // ---------------------------------------------------------------- a start whose thread does not start

  /** The status says running and nobody is. */
  predicate Stuck(s: Service)
  {
    s.status == Running && s.workers == map[]
  }

  /** Once stuck, always stuck: no call and no step leads out. */
  lemma {:induction false} StuckForever(s: Service, es: seq<Event>)
    requires Stuck(s)
    ensures Stuck(Steps(s, es)) && Steps(s, es).run == s.run
  {
    if es != [] {
      StuckForever(s, es[..|es| - 1]);
    }
  }

  /** The service gets stuck exactly by a start that is admitted and whose thread then fails to start. */
  lemma StuckExactlyByFailedThread(s: Service, e: Event)
    requires Inv(s) && !Stuck(s)
    ensures Stuck(Step(s, e)) <==> e.StartCalled? && Possible(s, e) && s.status != Running && !e.threadStarts
  {
    assert OneWorker(s);
    if s.status != Running {
      assert s.workers == map[];
    }
    if Possible(s, e) && e.WorkerMoves? {
      hide Inv;
      if !s.workers[e.worker].pc.Finish? {
        WorkerMovesOn(s, e.worker, e.input);
        hide WorkerStep;
      } else {
        hide Round;
      }
    }
  }
}
