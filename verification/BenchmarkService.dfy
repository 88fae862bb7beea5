/**
 The benchmark service's methods against the transitions of Benchmark, and its disk stage as the
 loops it is written as.
 */
module BenchmarkService {
  import opened Options
  import opened Rounding
  import opened Benchmark
  import BenchmarkRuns

  class Service {
    const config: Config
    var status: Status
    var run: Option<RunId>
    var progress: real
    var resultId: Option<RowId>
    var cancelSet: bool
    var workers: map<RunId, Worker>
    var rows: map<RowId, RunId>
    ghost var ended: map<RunId, Outcome>
    ghost var tempFiles: set<RunId>
    ghost var cleanupFailed: set<RunId>
    ghost var used: set<RunId>
    var clock: real

    ghost function State(): Benchmark.Service
      reads this
    {
      Benchmark.Service(config, status, run, progress, resultId, cancelSet, workers, rows, ended,
        tempFiles, cleanupFailed, used, clock)
    }

    constructor (config: Config)
      ensures Fresh(State()) && this.config == config
    {
      this.config := config;
      status, run, progress, resultId, cancelSet := Idle, None, 0.0, None, false;
      workers, rows, clock := map[], map[], 0.0;
      ended, tempFiles, cleanupFailed, used := map[], {}, {}, {};
    }

    method Start(id: RunId, threadStarts: bool, now: real) returns (ok: bool)
      modifies this
      ensures (State(), ok) == Benchmark.Start(old(State()), id, threadStarts, now)
      ensures old(BenchmarkRuns.Inv(State())) && id !in old(used) ==> BenchmarkRuns.Inv(State())
    {
      hide BenchmarkRuns.Inv;
      if BenchmarkRuns.Inv(State()) && id !in used { BenchmarkRuns.StartKeeps(State(), id, threadStarts, now); }
      if status == Running {
        return false;
      }
      cancelSet := false;
      status, run, progress, resultId := Running, Some(id), 0.0, None;
      used := used + {id};
      clock := now;
      if threadStarts {
        workers := workers[id := Worker(CheckStart, now, 0, 0)];
      }
      return threadStarts;
    }

    method Cancel() returns (ok: bool)
      modifies this`cancelSet
      ensures (State(), ok) == Benchmark.Cancel(old(State()))
      ensures old(BenchmarkRuns.Inv(State())) ==> BenchmarkRuns.Inv(State())
    {
      hide BenchmarkRuns.Inv;
      if BenchmarkRuns.Inv(State()) { BenchmarkRuns.CancelKeeps(State()); }
      if status != Running {
        return false;
      }
      cancelSet := true;
      return true;
    }

    method Update(target: real)
      modifies this`progress
      ensures State() == Benchmark.Update(old(State()), target)
      ensures old(BenchmarkRuns.Inv(State())) ==> BenchmarkRuns.Inv(State())
    {
      hide BenchmarkRuns.Inv;
      if BenchmarkRuns.Inv(State()) { BenchmarkRuns.UpdateKeeps(State(), target); }
      if status != Running {
        return;
      }
      var shown := target;
      if shown > 100.0 {
        shown := 100.0;
      }
      if shown < 0.0 {
        shown := 0.0;
      }
      progress := Round(shown, 10);
    }

    /** The end of a run. */
    method Finish(id: RunId, o: Outcome)
      modifies this
      ensures State() == FinishRun(old(State()), id, o)
      ensures old(BenchmarkRuns.Inv(State())) && id in old(workers) && old(workers)[id].pc == Pc.Finish(o) ==>
                BenchmarkRuns.Inv(State())
    {
      hide BenchmarkRuns.Inv;
      if BenchmarkRuns.Inv(State()) && id in workers && workers[id].pc == Pc.Finish(o) {
        BenchmarkRuns.FinishKeeps(State(), id, o, clock);
      }
      workers := workers - {id};
      ended := ended[id := o];
      if run != Some(id) {
        return;
      }
      status := StatusOf(o);
      progress := Round(if o.Done? then 100.0 else progress, 10);
      resultId := if o.Done? then Some(o.row) else None;
    }
  }

  // ---------------------------------------------------------------- the disk stage

  datatype End = Through | Stopped | Raised

  /** The temporary file: whether it is there, and the lengths written to it so far. */
  class TempFile {
    var present: bool
    var pieces: seq<nat>

    constructor ()
      ensures present && pieces == []
    {
      present, pieces := true, [];
    }
  }

  function Sum(s: seq<nat>): nat
  {
    if s == [] then 0 else Sum(s[..|s| - 1]) + s[|s| - 1]
  }

  /** Every piece is a non-empty part of one chunk, and only the last may be shorter than the chunk. */
  predicate ChunkBounded(pieces: seq<nat>, chunk: nat)
  {
    && (forall i :: 0 <= i < |pieces| ==> 1 <= pieces[i] <= chunk)
    && (forall i :: 0 <= i < |pieces| - 1 ==> pieces[i] == chunk)
  }

  /** The k-th answer of the outside world; once it has nothing more to say, no. */
  predicate Answer(answers: seq<bool>, k: nat)
  {
    k < |answers| && answers[k]
  }

  ghost predicate Calm(answers: seq<bool>)
  {
    forall k: nat :: !Answer(answers, k)
  }

  /** Writes until the total is reached, a cancellation is seen, or a write raises. */
  method WriteAll(file: TempFile, total: nat, chunk: nat, cancels: seq<bool>, raises: seq<bool>) returns (end: End)
    requires file.present && file.pieces == [] && 0 < chunk
    modifies file`pieces
    ensures ChunkBounded(file.pieces, chunk) && Sum(file.pieces) <= total
    ensures end == Through <==> Sum(file.pieces) == total
    ensures forall k :: 0 <= k < |file.pieces| ==> !Answer(cancels, k) && !Answer(raises, k)
    ensures end == Stopped ==> Answer(cancels, |file.pieces|)
    ensures end == Raised ==> Answer(raises, |file.pieces|) && !Answer(cancels, |file.pieces|)
  {
    var written := 0;
    while written < total
      invariant written == Sum(file.pieces) <= total
      invariant ChunkBounded(file.pieces, chunk)
      invariant written < total ==> forall i :: 0 <= i < |file.pieces| ==> file.pieces[i] == chunk
      invariant forall k :: 0 <= k < |file.pieces| ==> !Answer(cancels, k) && !Answer(raises, k)
      decreases total - written
    {
      var k := |file.pieces|;
      if Answer(cancels, k) {
        return Stopped;
      }
      var amount := if chunk < total - written then chunk else total - written;
      if Answer(raises, k) {
        return Raised;
      }
      ghost var before := file.pieces;
      file.pieces := file.pieces + [amount];
      assert file.pieces[..|file.pieces| - 1] == before;
      written := written + amount;
    }
    return Through;
  }

  /** Reads blocks of the sizes the file gives until it gives none, a cancellation is seen, or a read raises. */
  method ReadAll(file: TempFile, blocks: seq<nat>, cancels: seq<bool>, raises: seq<bool>)
    returns (end: End, taken: nat, read: nat)
    requires file.present
    requires Sum(blocks) == Sum(file.pieces)
    requires forall i :: 0 <= i < |blocks| ==> blocks[i] > 0
    ensures taken <= |blocks| && read == Sum(blocks[..taken]) && read <= Sum(file.pieces)
    ensures end == Through ==> taken == |blocks| && read == Sum(file.pieces)
    ensures forall k :: 0 <= k < taken ==> !Answer(cancels, k) && !Answer(raises, k)
    ensures end == Stopped <==> Answer(cancels, taken)
    ensures end == Raised <==> Answer(raises, taken) && !Answer(cancels, taken)
  {
    taken, read := 0, 0;
    while true
      invariant taken <= |blocks| && read == Sum(blocks[..taken])
      invariant forall k :: 0 <= k < taken ==> !Answer(cancels, k) && !Answer(raises, k)
      decreases |blocks| - taken
    {
      SumPrefix(blocks, taken);
      if Answer(cancels, taken) {
        return Stopped, taken, read;
      }
      if Answer(raises, taken) {
        return Raised, taken, read;
      }
      if taken == |blocks| {
        break;
      }
      assert blocks[..taken + 1][..taken] == blocks[..taken];
      read := read + blocks[taken];
      taken := taken + 1;
    }
    assert blocks[..|blocks|] == blocks;
    return Through, taken, read;
  }

  lemma {:induction false} SumPrefix(s: seq<nat>, i: nat)
    requires i <= |s|
    ensures Sum(s[..i]) <= Sum(s)
    decreases |s|
  {
    if i < |s| {
      SumPrefix(s[..|s| - 1], i);
      assert s[..|s| - 1][..i] == s[..i];
    } else {
      assert s[..i] == s;
    }
  }

  /** How the outside world behaves during the disk stage. */
  datatype Conditions = Conditions(
    created: bool, writeCancels: seq<bool>, writeRaises: seq<bool>, flushed: bool, readable: bool,
    blocks: seq<nat>, readCancels: seq<bool>, readRaises: seq<bool>, unlinked: bool)

  /**
   The disk stage: create, write, flush, read back, and remove the file whichever way the stage ends.
   When creating the file fails there is none to remove.
   */
  method RunDisk(config: Config, c: Conditions) returns (end: End, file: TempFile?, written: nat, read: nat)
    requires Sum(c.blocks) == TotalSize(config) && forall i :: 0 <= i < |c.blocks| ==> c.blocks[i] > 0
    ensures file == null <==> !c.created
    ensures file != null ==> fresh(file) && (file.present <==> !c.unlinked) && written == Sum(file.pieces)
    ensures file != null ==> ChunkBounded(file.pieces, ChunkSize(config))
    ensures end == Through ==> file != null && !file.present && written == read == TotalSize(config)
    ensures !c.created || !c.unlinked ==> end == Raised
    ensures end != Raised && written == TotalSize(config) ==> c.flushed && c.readable
    ensures file != null && written < TotalSize(config) ==> read == 0
    ensures c.created && c.flushed && c.readable && c.unlinked && Calm(c.writeRaises) && Calm(c.readRaises) ==>
              end != Raised
  {
    end, file, written, read := Raised, null, 0, 0;
    if !c.created {
      return;
    }
    file := new TempFile();
    end := WriteAll(file, TotalSize(config), ChunkSize(config), c.writeCancels, c.writeRaises);
    written := Sum(file.pieces);
    if end == Through {
      if c.flushed && c.readable {
        var taken: nat;
        end, taken, read := ReadAll(file, c.blocks, c.readCancels, c.readRaises);
      } else {
        end := Raised;
      }
    }
    if c.unlinked {
      file.present := false;
    } else {
      end := Raised;
    }
  }
}
