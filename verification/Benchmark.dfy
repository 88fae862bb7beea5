/**
 The benchmark service: one background worker, seen as a program counter, interleaved with calls of
 start and cancel. Every access to the shared state is one atomic step.
 */
module Benchmark {
  import opened Options
  import opened Rounding

  type RunId = nat
  type RowId = nat

  datatype Status = Idle | Running | Completed | Failed | Cancelled

  datatype Outcome = Done(row: RowId) | Failing | Cancelling

  datatype Stage = Single | Multi | Memory | Write | Read

  /** Where a worker stands. */
  datatype Pc =
    | CheckStart                 // first cancellation check
    | Profile                    // update to 1%, hardware profile
    | Enter(stage: Stage)        // update to the stage's base
    | Top(stage: Stage)          // loop guard
    | Check(stage: Stage)        // cancellation check inside the loop
    | Work(stage: Stage)         // one unit of work, then an update
    | AfterMulti                 // the check behind the multi-thread stage
    | CheckFinal                 // last cancellation check
    | Persist                    // insert and commit the row
    | Finish(outcome: Outcome)   // write the final state

  datatype Worker = Worker(pc: Pc, stageStart: real, written: nat, read: nat)

  datatype Config = Config(
    singleSeconds: real, multiSeconds: real, memorySeconds: real, fileBytes: int, chunkBytes: int)

  /**
   The service. `workers` are the threads between start and finish; `rows` maps each stored row to the
   run that stored it; `ended` and `cleanupFailed` record how runs ended; `tempFiles` holds the runs
   whose temporary file exists.
   */
  datatype Service = Service(
    config: Config, status: Status, run: Option<RunId>, progress: real, resultId: Option<RowId>,
    cancelSet: bool, workers: map<RunId, Worker>, rows: map<RowId, RunId>, ended: map<RunId, Outcome>,
    tempFiles: set<RunId>, cleanupFailed: set<RunId>, used: set<RunId>, clock: real)

  // ---------------------------------------------------------------- stages

  function AtLeast(x: real, least: real): real
  {
    if x < least then least else x
  }

  function Duration(c: Config, stage: Stage): (d: real)
    ensures d >= 0.01
  {
    match stage
    case Single => AtLeast(c.singleSeconds, 0.01)
    case Multi => AtLeast(c.multiSeconds, 0.01)
    case _ => AtLeast(c.memorySeconds, 0.01)
  }

  function ChunkSize(c: Config): (n: nat)
    ensures n >= 65536
  {
    if c.chunkBytes < 65536 then 65536 else c.chunkBytes
  }

  function TotalSize(c: Config): (n: nat)
    ensures n >= ChunkSize(c)
  {
    if c.fileBytes < ChunkSize(c) then ChunkSize(c) else c.fileBytes
  }

  function Base(stage: Stage): int
  {
    match stage
    case Single => 5
    case Multi => 25
    case Memory => 50
    case Write => 70
    case Read => 85
  }

  function Span(stage: Stage): int
  {
    match stage
    case Single => 20
    case Multi => 25
    case Memory => 20
    case Write => 15
    case Read => 14
  }

  function AtMostOne(x: real): real
  {
    if x > 1.0 then 1.0 else x
  }

  /** How much of a stage is behind the worker at time `now`. */
  function Fraction(c: Config, w: Worker, stage: Stage, now: real): real
  {
    match stage
    case Write => w.written as real / TotalSize(c) as real
    case Read => w.read as real / TotalSize(c) as real
    case Memory => AtMostOne((now - w.stageStart) / Duration(c, stage))
    case _ =>
      var left := w.stageStart + Duration(c, stage) - now;
      AtMostOne((Duration(c, stage) - (if left > 0.0 then left else 0.0)) / Duration(c, stage))
  }

  function Target(c: Config, w: Worker, stage: Stage, now: real): real
  {
    Base(stage) as real + Span(stage) as real * Fraction(c, w, stage, now)
  }

  function Clamp(x: real): real
  {
    if x < 0.0 then 0.0 else if x > 100.0 then 100.0 else x
  }

  // ---------------------------------------------------------------- shared-state accesses

  function Start(s: Service, id: RunId, threadStarts: bool, now: real): (Service, bool)
  {
    if s.status == Running then (s, false)
    else
      (s.(status := Running, run := Some(id), progress := 0.0, resultId := None, cancelSet := false,
          used := s.used + {id}, clock := now,
          workers := if threadStarts then s.workers[id := Worker(CheckStart, now, 0, 0)] else s.workers),
       threadStarts)
  }

  function Cancel(s: Service): (Service, bool)
  {
    if s.status != Running then (s, false) else (s.(cancelSet := true), true)
  }

  function Update(s: Service, target: real): Service
  {
    if s.status != Running then s else s.(progress := Round(Clamp(target), 10))
  }

  function StatusOf(o: Outcome): Status
  {
    match o
    case Done(_) => Completed
    case Failing => Failed
    case Cancelling => Cancelled
  }

  /** `_finish`, and the end of the worker thread. */
  function FinishRun(s: Service, id: RunId, o: Outcome): Service
  {
    var s1 := s.(workers := s.workers - {id}, ended := s.ended[id := o]);
    if s.run != Some(id) then s1
    else
      s1.(status := StatusOf(o),
          progress := Round(if o.Done? then 100.0 else s.progress, 10),
          resultId := if o.Done? then Some(o.row) else None)
  }

  // ---------------------------------------------------------------- one step of a worker

  /**
   What the world does during one worker step: the time, whether the operation raises, how many bytes a
   read returns, whether all worker futures are done, the id of an inserted row, whether unlink works.
   */
  datatype Input = Input(now: real, ok: bool, bytes: nat, allDone: bool, row: RowId, unlinkOk: bool)

  function Move(s: Service, id: RunId, w: Worker): Service
  {
    s.(workers := s.workers[id := w])
  }

  function Goto(s: Service, id: RunId, pc: Pc): Service
    requires id in s.workers
  {
    Move(s, id, s.workers[id].(pc := pc))
  }

  /** Leaving the disk stage by any path runs the clean-up; a failing unlink turns the run into a failure. */
  function LeaveDisk(s: Service, id: RunId, next: Pc, unlinkOk: bool): Service
    requires id in s.workers
  {
    if id !in s.tempFiles then Goto(s, id, next)
    else if unlinkOk then Goto(s.(tempFiles := s.tempFiles - {id}), id, next)
    else Goto(s.(cleanupFailed := s.cleanupFailed + {id}), id, Finish(Failing))
  }

  function Leave(s: Service, id: RunId, stage: Stage, o: Outcome, unlinkOk: bool): Service
    requires id in s.workers
  {
    if stage.Write? || stage.Read? then LeaveDisk(s, id, Finish(o), unlinkOk) else Goto(s, id, Finish(o))
  }

  function StageAfter(stage: Stage): Pc
  {
    match stage
    case Single => Enter(Multi)
    case Multi => AfterMulti
    case Memory => Enter(Write)
    case Write => Enter(Read)
    case Read => CheckFinal
  }

  /**
   What comes before a stage's first check may raise: submitting the tasks, the memory buffers, the temporary
   file and its directory, opening the file to read it.
   */
  function EnterStage(s: Service, id: RunId, stage: Stage, i: Input): Service
    requires id in s.workers
  {
    var s1 := Update(s, Base(stage) as real);
    if !i.ok && stage.Read? then LeaveDisk(s1, id, Finish(Failing), i.unlinkOk)
    else if !i.ok && !stage.Single? then Goto(s1, id, Finish(Failing))
    else
      var s2 := if stage.Write? then s1.(tempFiles := s1.tempFiles + {id}) else s1;
      Move(s2, id, s.workers[id].(pc := Top(stage), stageStart := i.now))
  }

  predicate LoopOver(s: Service, w: Worker, stage: Stage, i: Input)
  {
    match stage
    case Multi => i.allDone
    case Write => w.written >= TotalSize(s.config)
    case Read => false
    case _ => i.now >= w.stageStart + Duration(s.config, stage)
  }

  function AtTop(s: Service, id: RunId, stage: Stage, i: Input): Service
    requires id in s.workers
  {
    if !LoopOver(s, s.workers[id], stage, i) then Goto(s, id, Check(stage))
    else if !i.ok then Leave(s, id, stage, Failing, i.unlinkOk)         // flush, or a failed future
    else Goto(s, id, StageAfter(stage))
  }

  function DoWork(s: Service, id: RunId, stage: Stage, i: Input): Service
    requires id in s.workers
  {
    var w := s.workers[id];
    var total, chunk := TotalSize(s.config), ChunkSize(s.config);
    if !i.ok then Leave(s, id, stage, Failing, i.unlinkOk)
    else if stage.Read? && w.read >= total then LeaveDisk(s, id, StageAfter(stage), i.unlinkOk)   // end of file
    else
      var w1 :=
        if stage.Write? then
          w.(written := w.written + if chunk < total - w.written then chunk else total - w.written)
        else if stage.Read? then
          w.(read := w.read + i.bytes)
        else w;
      Move(Update(s, Target(s.config, w1, stage, i.now)), id, w1.(pc := Top(stage)))
  }

  /** What a single read may return before the end of the file. */
  predicate ReadPossible(s: Service, w: Worker, i: Input)
  {
    w.pc == Work(Read) && i.ok && w.read < TotalSize(s.config) ==>
      1 <= i.bytes <= ChunkSize(s.config) && w.read + i.bytes <= TotalSize(s.config)
  }

  function WorkerStep(s0: Service, id: RunId, i: Input): Service
    requires id in s0.workers
  {
    var s := s0.(clock := i.now);
    match s.workers[id].pc
    case CheckStart => Goto(s, id, if s.cancelSet then Finish(Cancelling) else Profile)
    case Profile => Goto(Update(s, 1.0), id, if i.ok then Enter(Single) else Finish(Failing))
    case Enter(stage) => EnterStage(s, id, stage, i)
    case Top(stage) => AtTop(s, id, stage, i)
    case Check(stage) =>
      if s.cancelSet then Leave(s, id, stage, Cancelling, i.unlinkOk) else Goto(s, id, Work(stage))
    case Work(stage) => DoWork(s, id, stage, i)
    case AfterMulti => Goto(s, id, if s.cancelSet then Finish(Cancelling) else Enter(Memory))
    case CheckFinal => Goto(s, id, if s.cancelSet then Finish(Cancelling) else Persist)
    case Persist =>
      if i.ok then Goto(s.(rows := s.rows[i.row := id]), id, Finish(Done(i.row)))
      else Goto(s, id, Finish(Failing))
    case Finish(o) => FinishRun(s, id, o)
  }

  // ---------------------------------------------------------------- events and runs

  datatype Event =
    | StartCalled(id: RunId, threadStarts: bool, at: real)
    | CancelCalled
    | WorkerMoves(worker: RunId, input: Input)

  /** Run ids and row ids are new, the clock does not go back, and reads return what a file can give. */
  predicate Possible(s: Service, e: Event)
  {
    match e
    case StartCalled(id, _, at) => id !in s.used && at >= s.clock
    case CancelCalled => true
    case WorkerMoves(id, i) =>
      id in s.workers && i.now >= s.clock && i.row !in s.rows && ReadPossible(s, s.workers[id], i)
  }

  function Step(s: Service, e: Event): Service
  {
    if !Possible(s, e) then s
    else
      match e
      case StartCalled(id, threadStarts, at) => Start(s, id, threadStarts, at).0
      case CancelCalled => Cancel(s).0
      case WorkerMoves(id, i) => WorkerStep(s, id, i)
  }

  function Steps(s: Service, es: seq<Event>): Service
  {
    if es == [] then s else Step(Steps(s, es[..|es| - 1]), es[|es| - 1])
  }

  /** A service as constructed, over the rows of earlier runs. */
  ghost predicate Fresh(s: Service)
  {
    && s.status == Idle && s.run == None && s.progress == 0.0 && s.resultId == None
    && s.workers == map[] && s.ended == map[] && s.tempFiles == {} && s.cleanupFailed == {}
    && (forall r :: r in s.rows ==> s.rows[r] in s.used)
  }
}
