/**
 The gaming detector: scans that may overlap, a table of sessions whose writes may fail, deletions that
 check and delete in two steps, and restarts of the detector and of the whole program.
 */
module GamingSessions {
  import opened Options
  import opened GamingMetrics

  type Id = string

  datatype RowStatus = Active | Completed | Interrupted

  datatype Row = Row(status: RowStatus, endedAt: Option<real>, columns: Columns)

  /** The running session; `samples` records everything added to it. */
  datatype Session = Session(id: Id, accumulators: Accumulators, totalSamples: nat, samples: seq<Sample>)

  /**
   `sampling` holds the session ids of scans between their two critical sections, `deleting` the ids
   whose deletion has passed its check; `cleared` records that a start has closed what earlier runs of
   the program left open.
   */
  datatype Gaming = Gaming(
    current: Option<Session>, rows: map<Id, Row>, sampling: multiset<Id>, deleting: set<Id>,
    used: set<Id>, cleared: bool)

  // ---------------------------------------------------------------- the critical sections

  function NewSession(id: Id): Session
  {
    Session(id, NewAccumulators(), 0, [])
  }

  function SessionColumns(s: Session): Columns
  {
    ColumnsOf(s.accumulators, s.totalSamples)
  }

  /** UPDATE ... WHERE id: a missing row is not created. */
  function UpdateRow(rows: map<Id, Row>, id: Id, row: Row): map<Id, Row>
  {
    if id in rows then rows[id := row] else rows
  }

  /** First section of a scan that found a game. A failing insert leaves the session without a row. */
  function GameFound(g: Gaming, newId: Id, dbOk: bool): Gaming
  {
    match g.current
    case Some(session) => g.(sampling := g.sampling + multiset{session.id})
    case None =>
      var session := NewSession(newId);
      var g1 := g.(current := Some(session), used := g.used + {newId});
      if dbOk then
        g1.(rows := g.rows[newId := Row(Active, None, SessionColumns(session))],
            sampling := g.sampling + multiset{newId})
      else g1

  }

  /** First section of a scan that found none: the session, if any, is completed. */
  function NoGameFound(g: Gaming, dbOk: bool, now: real): Gaming
  {
    match g.current
    case None => g
    case Some(session) =>
      if !dbOk then g
      else
        g.(rows := UpdateRow(g.rows, session.id, Row(Completed, Some(now), SessionColumns(session))), current := None)
  }

  /** Second section of a scan: the sample counts only if the session it was taken for is still running. */
  function SampleTaken(g: Gaming, sample: Sample, dbOk: bool): Gaming
  {
    var g1 := g.(sampling := g.sampling - multiset{sample.takenFor});
    match g.current
    case None => g1
    case Some(session) =>
      if session.id != sample.takenFor then g1
      else
        var more := Session(session.id, AddSample(session.accumulators, sample), session.totalSamples + 1,
                            session.samples + [sample]);
        var g2 := g1.(current := Some(more));
        if dbOk then g2.(rows := UpdateRow(g.rows, session.id, Row(Active, None, SessionColumns(more)))) else g2
  }

  /** Closing what was left open, when the detector starts. */
  function CloseInterrupted(rows: map<Id, Row>, now: real): map<Id, Row>
  {
    map id | id in rows :: if rows[id].status.Active? then Row(Interrupted, Some(now), rows[id].columns) else rows[id]
  }

  function StartDetector(g: Gaming, threadAlive: bool, dbOk: bool, now: real): Gaming
  {
    if threadAlive || !dbOk then g else g.(rows := CloseInterrupted(g.rows, now), cleared := true)
  }

  function DeleteChecked(g: Gaming, id: Id): Gaming
  {
    if g.current.Some? && g.current.value.id == id then g
    else g.(deleting := g.deleting + {id}, used := g.used + {id})
  }

  function DeleteRow(g: Gaming, id: Id, dbOk: bool): Gaming
  {
    var g1 := g.(deleting := g.deleting - {id});
    if dbOk then g1.(rows := g.rows - {id}) else g1
  }

  /** The program ends and is started again; the table survives. */
  function ProgramRestarts(g: Gaming): Gaming
  {
    g.(current := None, sampling := multiset{}, deleting := {}, cleared := false)
  }

  datatype Event =
    | Found(newId: Id, insertOk: bool)
    | NotFound(updateOk: bool, at: real)
    | Sampled(sample: Sample, writeOk: bool)
    | Started(threadAlive: bool, closeOk: bool, now: real)
    | DeleteAsked(id: Id)
    | DeleteDone(deletedId: Id, deleteOk: bool)
    | Restarted

  /** New sessions get ids never seen before; second sections follow first ones. */
  predicate Possible(g: Gaming, e: Event)
  {
    match e
    case Found(id, _) => id !in g.used
    case Sampled(sample, _) => sample.takenFor in g.sampling
    case DeleteDone(id, _) => id in g.deleting
    case _ => true
  }

  function Step(g: Gaming, e: Event): Gaming
  {
    if !Possible(g, e) then g
    else
      match e
      case Found(id, ok) => GameFound(g, id, ok)
      case NotFound(ok, at) => NoGameFound(g, ok, at)
      case Sampled(sample, ok) => SampleTaken(g, sample, ok)
      case Started(alive, ok, now) => StartDetector(g, alive, ok, now)
      case DeleteAsked(id) => DeleteChecked(g, id)
      case DeleteDone(id, ok) => DeleteRow(g, id, ok)
      case Restarted => ProgramRestarts(g)
  }

  function Run(g: Gaming, es: seq<Event>): Gaming
  {
    if es == [] then g else Step(Run(g, es[..|es| - 1]), es[|es| - 1])
  }

  /** The first start of the program over a table in which open rows are the active ones. */
  ghost predicate Fresh(g: Gaming)
  {
    && g.current == None && g.sampling == multiset{} && g.deleting == {} && !g.cleared
    && (forall id :: id in g.rows ==> id in g.used && OpenWhenActive(g.rows[id]))
  }

  // ---------------------------------------------------------------- the invariant

  predicate OpenWhenActive(r: Row)
  {
    r.status.Active? <==> r.endedAt.None?
  }

  predicate IsCurrent(g: Gaming, id: Id)
  {
    g.current.Some? && g.current.value.id == id
  }

  ghost predicate RowOk(g: Gaming, id: Id)
    requires id in g.rows
  {
    && id in g.used
    && OpenWhenActive(g.rows[id])
    && (g.cleared && g.rows[id].status.Active? ==> IsCurrent(g, id))
  }

  ghost predicate SessionOk(s: Session)
  {
    && s.totalSamples == |s.samples|
    && AllSummarise(s.accumulators, s.samples)
    && (forall i :: 0 <= i < |s.samples| ==> s.samples[i].takenFor == s.id)
  }

  ghost predicate Inv(g: Gaming)
  {
    && (forall id :: id in g.rows ==> RowOk(g, id))
    && (g.current.Some? ==> SessionOk(g.current.value) && g.current.value.id in g.used)
    && (forall id :: id in g.sampling ==> id in g.used)
  }

  lemma MoreSamples(s: Session, sample: Sample)
    requires SessionOk(s) && sample.takenFor == s.id
    ensures SessionOk(Session(s.id, AddSample(s.accumulators, sample), s.totalSamples + 1, s.samples + [sample]))
  {
    hide AllSummarise;
    AddSampleSummarises(s.accumulators, s.samples, sample);
  }

  lemma FoundKeeps(g: Gaming, id: Id, ok: bool)
    requires Inv(g) && id !in g.used
    ensures Inv(GameFound(g, id, ok))
  {
    hide SessionOk, SessionColumns, NewAccumulators;
    NewSessionOk(id);
    var g' := GameFound(g, id, ok);
    forall k | k in g'.rows ensures RowOk(g', k) {
      assert k in g.rows ==> RowOk(g, k);
    }
  }

  lemma SampledKeeps(g: Gaming, sample: Sample, ok: bool)
    requires Inv(g)
    ensures Inv(SampleTaken(g, sample, ok))
  {
    hide SessionOk, SessionColumns, AddSample;
    if IsCurrent(g, sample.takenFor) {
      MoreSamples(g.current.value, sample);
    }
    var g' := SampleTaken(g, sample, ok);
    forall k | k in g'.rows ensures RowOk(g', k) {
      assert k in g.rows && RowOk(g, k);
    }
  }

  lemma OthersKeep(g: Gaming, e: Event)
    requires Inv(g) && !e.Found? && !e.Sampled?
    ensures Inv(Step(g, e))
  {
    hide SessionOk, SessionColumns, AddSample;
    var g' := Step(g, e);
    forall k | k in g'.rows ensures RowOk(g', k) {
      assert k in g.rows && RowOk(g, k);
    }
  }

  /** The first section of a scan. */
  lemma DetectKeeps(g: Gaming, found: bool, newId: Id, dbOk: bool, now: real)
    requires Inv(g) && newId !in g.used
    ensures Inv(if found then GameFound(g, newId, dbOk) else NoGameFound(g, dbOk, now))
  {
    if found {
      FoundKeeps(g, newId, dbOk);
    } else {
      OthersKeep(g, NotFound(dbOk, now));
    }
  }

  /** Every step keeps the invariant. */
  lemma StepKeeps(g: Gaming, e: Event)
    requires Inv(g)
    ensures Inv(Step(g, e))
  {
    hide Inv, GameFound, SampleTaken;
    if e.Found? {
      if Possible(g, e) {
        FoundKeeps(g, e.newId, e.insertOk);
      }
    } else if e.Sampled? {
      SampledKeeps(g, e.sample, e.writeOk);
    } else {
      OthersKeep(g, e);
    }
  }

  lemma NewSessionOk(id: Id)
    ensures SessionOk(NewSession(id))
  {
    NewSummarise();
  }

  lemma {:induction false} RunKeeps(g: Gaming, es: seq<Event>)
    requires Inv(g)
    ensures Inv(Run(g, es))
  {
    hide Inv, Step;
    if es != [] {
      RunKeeps(g, es[..|es| - 1]);
      StepKeeps(Run(g, es[..|es| - 1]), es[|es| - 1]);
    }
  }

  // ---------------------------------------------------------------- consequences for whole runs

  /**
   Over all runs, with failed writes, overlapping scans and restarts: a row is active exactly when its
   end time is null, and once a start has closed earlier rows, an active row is the current session's.
   */
  lemma ActiveRowIsCurrent(g0: Gaming, es: seq<Event>, id: Id)
    requires Fresh(g0) && id in Run(g0, es).rows
    ensures var g := Run(g0, es);
      && (g.rows[id].status.Active? <==> g.rows[id].endedAt.None?)
      && (g.cleared && g.rows[id].status.Active? ==> IsCurrent(g, id))
  {
    RunKeeps(g0, es);
    hide Run;
    assert RowOk(Run(g0, es), id);
  }

  // ---------------------------------------------------------------- the active rows, exactly

  function ActiveIds(rows: map<Id, Row>): set<Id>
  {
    set id | id in rows && rows[id].status.Active?
  }

  /**
   The rows that were active when the program was last started, less those a committed start of the
   detector has closed or a deletion has taken since.
   */
  function LeftOpen(g0: Gaming, es: seq<Event>): set<Id>
  {
    if es == [] then ActiveIds(g0.rows)
    else
      var front, e := es[..|es| - 1], es[|es| - 1];
      OpenAfter(Run(g0, front), LeftOpen(g0, front), e)
  }

  function OpenAfter(g: Gaming, open: set<Id>, e: Event): set<Id>
  {
    match e
    case Restarted => ActiveIds(g.rows)
    case Started(alive, ok, _) => if !alive && ok then {} else open
    case DeleteDone(id, ok) => if ok && Possible(g, e) then open - {id} else open
    case _ => open
  }

  ghost predicate OpenExactly(g: Gaming, open: set<Id>)
  {
    forall id :: id in open <==> id in g.rows && g.rows[id].status.Active? && !IsCurrent(g, id)
  }

  lemma OpenFound(g: Gaming, open: set<Id>, newId: Id, ok: bool)
    requires Inv(g) && OpenExactly(g, open) && newId !in g.used
    ensures OpenExactly(GameFound(g, newId, ok), open)
  {
    hide SessionColumns, NewAccumulators, SessionOk;
    assert newId in g.rows ==> RowOk(g, newId);
  }

  lemma OpenSampled(g: Gaming, open: set<Id>, sample: Sample, ok: bool)
    requires OpenExactly(g, open)
    ensures OpenExactly(SampleTaken(g, sample, ok), open)
  {
    hide SessionColumns, AddSample;
  }

  lemma OpenOthers(g: Gaming, open: set<Id>, e: Event)
    requires OpenExactly(g, open) && !e.Found? && !e.Sampled?
    ensures OpenExactly(Step(g, e), OpenAfter(g, open, e))
  {
    hide SessionColumns;
  }

  lemma OpenStep(g: Gaming, open: set<Id>, e: Event)
    requires Inv(g) && OpenExactly(g, open)
    ensures OpenExactly(Step(g, e), OpenAfter(g, open, e))
  {
    hide Inv, OpenExactly, GameFound, SampleTaken, ActiveIds;
    if e.Found? {
      if Possible(g, e) {
        OpenFound(g, open, e.newId, e.insertOk);
      }
    } else if e.Sampled? {
      OpenSampled(g, open, e.sample, e.writeOk);
    } else {
      OpenOthers(g, open, e);
    }
  }

  /**
   Over all runs, and for every row: it is active and not the current session's exactly when it was left
   open by an earlier run of the program and neither closed by a committed start nor deleted since.
   */
  lemma {:induction false} OtherActiveRowsAreLeftOpen(g0: Gaming, es: seq<Event>)
    requires Fresh(g0)
    ensures OpenExactly(Run(g0, es), LeftOpen(g0, es))
  {
    hide Inv, Step, OpenExactly, OpenAfter;
    if es == [] {
      FreshOpen(g0);
    } else {
      var front, e := es[..|es| - 1], es[|es| - 1];
      OtherActiveRowsAreLeftOpen(g0, front);
      FreshInv(g0);
      RunKeeps(g0, front);
      OpenStep(Run(g0, front), LeftOpen(g0, front), e);
    }
  }

  lemma FreshOpen(g0: Gaming)
    requires Fresh(g0)
    ensures OpenExactly(g0, ActiveIds(g0.rows))
  {
  }

  lemma FreshInv(g0: Gaming)
    requires Fresh(g0)
    ensures Inv(g0)
  {
  }

  /** Such a row: the program ends while a session runs, and is started again without its detector. */
  lemma RestartLeavesRowOpen(g0: Gaming, id: Id)
    requires Fresh(g0) && id !in g0.used
    ensures var g := Step(Step(g0, Found(id, true)), Restarted);
      g.current == None && id in g.rows && g.rows[id].status.Active?
  {
    hide SessionColumns, NewAccumulators;
  }

  predicate NoRestart(es: seq<Event>)
  {
    forall i :: 0 <= i < |es| ==> !es[i].Restarted?
  }

  /** From a committed start on, until the program restarts, every active row is the current session's. */
  lemma ClearedUntilRestart(g0: Gaming, before: seq<Event>, now: real, after: seq<Event>, id: Id)
    requires Fresh(g0) && NoRestart(after)
    ensures var g := Run(Step(Run(g0, before), Started(false, true, now)), after);
      id in g.rows && g.rows[id].status.Active? ==> IsCurrent(g, id)
  {
    FreshInv(g0);
    RunKeeps(g0, before);
    var started := Step(Run(g0, before), Started(false, true, now));
    StepKeeps(Run(g0, before), Started(false, true, now));
    RunKeeps(started, after);
    StaysCleared(started, after);
    hide Run;
    var g := Run(started, after);
    assert id in g.rows ==> RowOk(g, id);
  }

  lemma {:induction false} StaysCleared(g: Gaming, es: seq<Event>)
    requires g.cleared && NoRestart(es)
    ensures Run(g, es).cleared
  {
    hide SessionColumns, AddSample;
    if es != [] {
      StaysCleared(g, es[..|es| - 1]);
    }
  }

  /**
   Restarting the detector inside one program interrupts the running session's row too; the session
   goes on, and its next sample makes the row active again.
   */
  lemma RestartInterruptsThenSampleRevives(g: Gaming, sample: Sample, now: real)
    requires IsCurrent(g, sample.takenFor) && sample.takenFor in g.rows && g.rows[sample.takenFor].status.Active?
    requires sample.takenFor in g.sampling
    ensures var restarted := Step(g, Started(false, true, now));
      var sampled := Step(restarted, Sampled(sample, true));
      && IsCurrent(restarted, sample.takenFor) && restarted.rows[sample.takenFor].status.Interrupted?
      && IsCurrent(sampled, sample.takenFor) && sampled.rows[sample.takenFor].status.Active?
  {
    hide AddSample, SessionColumns;
  }

  /** Has a detector start committed since the current session's last successful insert or sample write? */
  function ClosedUnder(g0: Gaming, es: seq<Event>): bool
  {
    if es == [] then false
    else
      var front, e := es[..|es| - 1], es[|es| - 1];
      ClosedAfter(Run(g0, front), ClosedUnder(g0, front), e)
  }

  function ClosedAfter(g: Gaming, closed: bool, e: Event): bool
  {
    match e
    case Started(alive, ok, _) => closed || (!alive && ok)
    case Found(_, ok) => closed && !(Possible(g, e) && g.current.None? && ok)
    case Sampled(sample, ok) => closed && !(Possible(g, e) && IsCurrent(g, sample.takenFor) && ok)
    case _ => closed
  }

  /** The current session's row, when it has one, is active or interrupted as this flag says. */
  predicate CurrentRowIs(g: Gaming, closed: bool)
  {
    g.current.Some? && g.current.value.id in g.rows ==>
      g.rows[g.current.value.id].status == if closed then Interrupted else Active
  }

  lemma CurrentRowFound(g: Gaming, newId: Id, ok: bool, closed: bool)
    requires Inv(g) && newId !in g.used && CurrentRowIs(g, closed)
    ensures CurrentRowIs(GameFound(g, newId, ok), ClosedAfter(g, closed, Found(newId, ok)))
  {
    hide SessionColumns, NewAccumulators, SessionOk;
    assert newId in g.rows ==> RowOk(g, newId);
  }

  lemma CurrentRowSampled(g: Gaming, sample: Sample, ok: bool, closed: bool)
    requires CurrentRowIs(g, closed) && sample.takenFor in g.sampling
    ensures CurrentRowIs(SampleTaken(g, sample, ok), ClosedAfter(g, closed, Sampled(sample, ok)))
  {
    hide SessionColumns, AddSample;
  }

  lemma CurrentRowOthers(g: Gaming, e: Event, closed: bool)
    requires CurrentRowIs(g, closed) && !e.Found? && !e.Sampled?
    ensures CurrentRowIs(Step(g, e), ClosedAfter(g, closed, e))
  {
    hide SessionColumns;
  }

  lemma CurrentRowStep(g: Gaming, e: Event, closed: bool)
    requires Inv(g) && CurrentRowIs(g, closed)
    ensures CurrentRowIs(Step(g, e), ClosedAfter(g, closed, e))
  {
    hide Inv, GameFound, SampleTaken;
    if Possible(g, e) {
      hide CurrentRowIs;
      match e {
        case Found(newId, ok) => CurrentRowFound(g, newId, ok, closed);
        case Sampled(sample, ok) => CurrentRowSampled(g, sample, ok, closed);
        case _ => CurrentRowOthers(g, e, closed);
      }
    }
  }

  lemma NoCurrentRow(g: Gaming)
    requires Fresh(g)
    ensures CurrentRowIs(g, false)
  {
  }

  /**
   Exactly: over all runs, the current session's row, when it has one, is active if and only if no start of
   the detector has committed since the last insert or sample write of that session that succeeded;
   otherwise it is interrupted.
   */
  lemma {:induction false} CurrentRowActiveExactly(g0: Gaming, es: seq<Event>)
    requires Fresh(g0)
    ensures CurrentRowIs(Run(g0, es), ClosedUnder(g0, es))
  {
    hide Inv, Step, CurrentRowIs, ClosedAfter;
    if es == [] {
      NoCurrentRow(g0);
    } else {
      var front, e := es[..|es| - 1], es[|es| - 1];
      CurrentRowActiveExactly(g0, front);
      FreshInv(g0);
      RunKeeps(g0, front);
      CurrentRowStep(Run(g0, front), e, ClosedUnder(g0, front));
    }
  }

  /** A sample taken for one session is never added to another. */
  lemma SamplesStayHome(g0: Gaming, es: seq<Event>, i: nat)
    requires Fresh(g0) && Run(g0, es).current.Some?
    requires i < |Run(g0, es).current.value.samples|
    ensures Run(g0, es).current.value.samples[i].takenFor == Run(g0, es).current.value.id
  {
    RunKeeps(g0, es);
    hide Run, AllSummarise;
  }

  /**
   After a sample's write succeeds the stored columns are those recomputed from every sample of the
   session, this one included; likewise when the session is completed.
   */
  lemma StoredColumnsAreRecomputed(g0: Gaming, es: seq<Event>, sample: Sample)
    requires Fresh(g0)
    requires var g := Run(g0, es); IsCurrent(g, sample.takenFor) && sample.takenFor in g.rows
    requires sample.takenFor in Run(g0, es).sampling
    ensures var g := Run(g0, es);
      var g' := Step(g, Sampled(sample, true));
      && g'.current.Some? && g'.current.value.samples == g.current.value.samples + [sample]
      && g'.rows[sample.takenFor].status.Active?
      && ColumnsMatch(g'.rows[sample.takenFor].columns, g.current.value.samples + [sample])
  {
    RunKeeps(g0, es);
    hide Run, AllSummarise, ColumnsMatch;
    var s := Run(g0, es).current.value;
    MoreSamples(s, sample);
    SummaryGivesColumns(AddSample(s.accumulators, sample), s.samples + [sample]);
  }

  lemma CompletedColumnsAreRecomputed(g0: Gaming, es: seq<Event>, at: real)
    requires Fresh(g0)
    requires var g := Run(g0, es); g.current.Some? && g.current.value.id in g.rows
    ensures var g := Run(g0, es);
      var row := Step(g, NotFound(true, at)).rows[g.current.value.id];
      row.status.Completed? && row.endedAt == Some(at) && ColumnsMatch(row.columns, g.current.value.samples)
  {
    RunKeeps(g0, es);
    hide Run, AllSummarise, ColumnsMatch;
    var s := Run(g0, es).current.value;
    SummaryGivesColumns(s.accumulators, s.samples);
  }

  /** In whatever a run stores for its current session, averages stay at or below their peaks. */
  lemma StoredAveragesAtMostPeaks(g0: Gaming, es: seq<Event>, m: Metric)
    requires Fresh(g0) && Run(g0, es).current.Some? && HasPeak(m)
    ensures var c := SessionColumns(Run(g0, es).current.value);
      && m in c.averages && m in c.peaks
      && (c.averages[m].Some? <==> c.peaks[m].Some?)
      && (c.averages[m].Some? ==> c.averages[m].value <= c.peaks[m].value)
  {
    RunKeeps(g0, es);
    hide Run, AllSummarise;
    var s := Run(g0, es).current.value;
    AveragesAtMostPeaks(s.accumulators, s.samples, m);
  }

  /** Averages at or below their peaks, and there together. */
  ghost predicate Balanced(c: Columns)
  {
    forall m: Metric :: HasPeak(m) ==>
      && m in c.averages && m in c.peaks
      && (c.averages[m].Some? <==> c.peaks[m].Some?)
      && (c.averages[m].Some? ==> c.averages[m].value <= c.peaks[m].value)
  }

  /** The samples the run has added to session id, in order. */
  function Taken(g0: Gaming, es: seq<Event>, id: Id): seq<Sample>
  {
    if es == [] then []
    else
      var front, e := es[..|es| - 1], es[|es| - 1];
      Taken(g0, front, id) + if Adds(Run(g0, front), e, id) then [e.sample] else []
  }

  /** A sample taken for session id arrives while that session runs. */
  predicate Adds(g: Gaming, e: Event, id: Id)
  {
    e.Sampled? && Possible(g, e) && e.sample.takenFor == id && IsCurrent(g, id)
  }

  /** The columns are what the first of these samples, up to some point, give when recomputed. */
  ghost predicate FromPrefix(c: Columns, taken: seq<Sample>)
  {
    exists n: nat :: n <= |taken| && ColumnsMatch(c, taken[..n])
  }

  lemma PrefixGrows(c: Columns, taken: seq<Sample>, more: seq<Sample>)
    requires FromPrefix(c, taken)
    ensures FromPrefix(c, taken + more)
  {
    hide ColumnsMatch;
    var n: nat :| n <= |taken| && ColumnsMatch(c, taken[..n]);
    assert (taken + more)[..n] == taken[..n];
  }

  /** A row the run has not written, or one whose columns are sound. */
  ghost predicate SoundRow(g0: Gaming, es: seq<Event>, id: Id)
    requires id in Run(g0, es).rows
  {
    var columns := Run(g0, es).rows[id].columns;
    || (id in g0.rows && columns == g0.rows[id].columns)
    || (Balanced(columns) && FromPrefix(columns, Taken(g0, es, id)))
  }

  lemma SessionColumnsSound(s: Session)
    requires SessionOk(s)
    ensures Balanced(SessionColumns(s)) && FromPrefix(SessionColumns(s), s.samples)
  {
    SummaryGivesColumns(s.accumulators, s.samples);
    hide AllSummarise, ColumnsMatch;
    assert s.samples[..|s.samples|] == s.samples;
    forall m: Metric | HasPeak(m)
      ensures var c := SessionColumns(s);
        && m in c.averages && m in c.peaks
        && (c.averages[m].Some? <==> c.peaks[m].Some?)
        && (c.averages[m].Some? ==> c.averages[m].value <= c.peaks[m].value)
    {
      AveragesAtMostPeaks(s.accumulators, s.samples, m);
    }
  }

  /** The session that runs after a step: new and empty, or the one before with the sample the step adds. */
  lemma CurrentAfter(g: Gaming, e: Event, id: Id)
    requires IsCurrent(Step(g, e), id)
    ensures var samples := Step(g, e).current.value.samples;
      if IsCurrent(g, id) then samples == g.current.value.samples + (if Adds(g, e, id) then [e.sample] else [])
      else samples == [] && id !in g.used
  {
    hide SessionColumns, AddSample, NewAccumulators;
    if e.Sampled? && IsCurrent(g, id) && !Adds(g, e, id) {
      assert g.current.value.samples + [] == g.current.value.samples;
    }
  }

  lemma UsedGrows(g: Gaming, e: Event)
    ensures g.used <= Step(g, e).used
  {
    hide SessionColumns, AddSample, NewAccumulators;
  }

  lemma {:induction false} UnusedTookNothing(g0: Gaming, es: seq<Event>, id: Id)
    requires Fresh(g0) && id !in Run(g0, es).used
    ensures Taken(g0, es, id) == []
  {
    if es != [] {
      var front, e := es[..|es| - 1], es[|es| - 1];
      UsedGrows(Run(g0, front), e);
      UnusedTookNothing(g0, front, id);
      FreshInv(g0);
      RunKeeps(g0, front);
      hide Step, Run;
    }
  }

  /** The samples of the running session are exactly those the run has added to it, once each and in order. */
  lemma {:induction false} SamplesAreTaken(g0: Gaming, es: seq<Event>)
    requires Fresh(g0) && Run(g0, es).current.Some?
    ensures Run(g0, es).current.value.samples == Taken(g0, es, Run(g0, es).current.value.id)
  {
    if es != [] {
      hide Step, Inv;
      var front, e := es[..|es| - 1], es[|es| - 1];
      var id := Run(g0, es).current.value.id;
      CurrentAfter(Run(g0, front), e, id);
      if IsCurrent(Run(g0, front), id) {
        SamplesAreTaken(g0, front);
      } else {
        UnusedTookNothing(g0, front, id);
      }
    }
  }

  /** The columns a step writes for row id are those of the session that runs after it, or that it ends. */
  ghost predicate WrittenFrom(g: Gaming, g': Gaming, id: Id, s: Session)
    requires id in g'.rows
  {
    || (id in g.rows && g'.rows[id].columns == g.rows[id].columns)
    || (s.id == id && g'.rows[id].columns == SessionColumns(s)
        && (g'.current == Some(s) || (g'.current == None && g.current == Some(s))))
  }

  function WriterOf(g: Gaming, g': Gaming, id: Id): Session
  {
    if g'.current.Some? then g'.current.value else if g.current.Some? then g.current.value else NewSession(id)
  }

  lemma FoundWrites(g: Gaming, newId: Id, ok: bool, id: Id)
    requires id in GameFound(g, newId, ok).rows
    ensures WrittenFrom(g, GameFound(g, newId, ok), id, WriterOf(g, GameFound(g, newId, ok), id))
  {
    hide SessionColumns, NewAccumulators;
  }

  lemma SampledWrites(g: Gaming, sample: Sample, ok: bool, id: Id)
    requires id in SampleTaken(g, sample, ok).rows
    ensures WrittenFrom(g, SampleTaken(g, sample, ok), id, WriterOf(g, SampleTaken(g, sample, ok), id))
  {
    hide SessionColumns, AddSample, NewAccumulators;
  }

  /** After a step, each row has the columns it had, or those of a session. */
  lemma StepWrites(g: Gaming, e: Event, id: Id)
    requires id in Step(g, e).rows
    ensures WrittenFrom(g, Step(g, e), id, WriterOf(g, Step(g, e), id))
  {
    hide GameFound, SampleTaken, SessionColumns, NewSession;
    if e.Found? {
      if Possible(g, e) {
        FoundWrites(g, e.newId, e.insertOk, id);
      }
    } else if e.Sampled? {
      if Possible(g, e) {
        SampledWrites(g, e.sample, e.writeOk, id);
      }
    }
  }

  /** What a session that has just been written holds. */
  lemma WrittenSound(g0: Gaming, es: seq<Event>, id: Id, s: Session)
    requires Fresh(g0) && es != [] && s.id == id
    requires Run(g0, es).current == Some(s)
             || (Run(g0, es).current == None && Run(g0, es[..|es| - 1]).current == Some(s))
    ensures Balanced(SessionColumns(s)) && FromPrefix(SessionColumns(s), Taken(g0, es, id))
  {
    hide Step, Inv, SessionOk, Balanced, FromPrefix, SessionColumns;
    var front := es[..|es| - 1];
    FreshInv(g0);
    if Run(g0, es).current == Some(s) {
      RunKeeps(g0, es);
      InvSession(Run(g0, es));
      SamplesAreTaken(g0, es);
      SessionColumnsSound(s);
    } else {
      RunKeeps(g0, front);
      InvSession(Run(g0, front));
      SamplesAreTaken(g0, front);
      SessionColumnsSound(s);
      PrefixGrows(SessionColumns(s), Taken(g0, front, id),
        if Adds(Run(g0, front), es[|es| - 1], id) then [es[|es| - 1].sample] else []);
    }
  }

  lemma InvSession(g: Gaming)
    requires Inv(g) && g.current.Some?
    ensures SessionOk(g.current.value)
  {
  }

  /**
   Over all runs, every row written in the run has sound columns: they are what the samples the run has
   added to that session, up to some point, give when recomputed, and no average exceeds its peak.
   */
  lemma {:induction false} StoredRowsStaySound(g0: Gaming, es: seq<Event>, id: Id)
    requires Fresh(g0) && id in Run(g0, es).rows
    ensures SoundRow(g0, es, id)
  {
    if es != [] {
      hide Inv, Balanced, FromPrefix, SessionColumns, Step, WriterOf;
      var front, e := es[..|es| - 1], es[|es| - 1];
      var s := WriterOf(Run(g0, front), Run(g0, es), id);
      StepWrites(Run(g0, front), e, id);
      if id in Run(g0, front).rows && Run(g0, es).rows[id].columns == Run(g0, front).rows[id].columns {
        StoredRowsStaySound(g0, front, id);
        if FromPrefix(Run(g0, front).rows[id].columns, Taken(g0, front, id)) {
          PrefixGrows(Run(g0, front).rows[id].columns, Taken(g0, front, id),
            if Adds(Run(g0, front), e, id) then [e.sample] else []);
        }
      } else {
        WrittenSound(g0, es, id, s);
      }
    }
  }

  /** A closed row of a session that is not the running one. */
  predicate Final(g: Gaming, id: Id)
  {
    id in g.rows && !g.rows[id].status.Active? && !IsCurrent(g, id)
  }

  /** Row id is left alone or deleted, and its session does not come back. */
  ghost predicate LeftAlone(g: Gaming, g': Gaming, id: Id)
  {
    id in g'.used && !IsCurrent(g', id) && (id in g'.rows ==> id in g.rows && g'.rows[id] == g.rows[id])
  }

  lemma FinalFound(g: Gaming, newId: Id, ok: bool, id: Id)
    requires Final(g, id) && id in g.used && newId !in g.used
    ensures LeftAlone(g, GameFound(g, newId, ok), id)
  {
    hide SessionColumns, NewAccumulators;
  }

  lemma FinalSampled(g: Gaming, sample: Sample, ok: bool, id: Id)
    requires Final(g, id) && id in g.used
    ensures LeftAlone(g, SampleTaken(g, sample, ok), id)
  {
    hide SessionColumns, AddSample;
  }

  lemma FinalOthers(g: Gaming, e: Event, id: Id)
    requires Final(g, id) && id in g.used && !e.Found? && !e.Sampled?
    ensures LeftAlone(g, Step(g, e), id)
  {
    hide SessionColumns;
  }

  lemma FinalStep(g: Gaming, e: Event, id: Id)
    requires Inv(g) && Final(g, id)
    ensures LeftAlone(g, Step(g, e), id)
  {
    FinalUsed(g, id);
    hide Inv, GameFound, SampleTaken;
    if e.Found? {
      if Possible(g, e) {
        FinalFound(g, e.newId, e.insertOk, id);
      }
    } else if e.Sampled? {
      FinalSampled(g, e.sample, e.writeOk, id);
    } else {
      FinalOthers(g, e, id);
    }
  }

  /** Such a row is never written again: it stays as it is until it is deleted, and then never comes back. */
  lemma {:induction false} FinalRowsNeverChange(g: Gaming, es: seq<Event>, id: Id)
    requires Inv(g) && Final(g, id)
    ensures var g' := Run(g, es);
      id in g'.used && !IsCurrent(g', id) && (id in g'.rows ==> Final(g', id) && g'.rows[id] == g.rows[id])
  {
    hide Inv, SessionColumns;
    if es != [] {
      var g1 := Run(g, es[..|es| - 1]);
      var e := es[|es| - 1];
      FinalRowsNeverChange(g, es[..|es| - 1], id);
      RunKeeps(g, es[..|es| - 1]);
      if id in g1.rows {
        FinalStep(g1, e, id);
      } else {
        GoneStays(g1, e, id);
      }
    } else {
      FinalUsed(g, id);
    }
  }

  lemma FinalUsed(g: Gaming, id: Id)
    requires Inv(g) && id in g.rows
    ensures id in g.used
  {
    assert RowOk(g, id);
  }

  lemma GoneStays(g: Gaming, e: Event, id: Id)
    requires id !in g.rows && id in g.used && !IsCurrent(g, id)
    ensures id !in Step(g, e).rows && id in Step(g, e).used && !IsCurrent(Step(g, e), id)
  {
    hide GameFound, SampleTaken, NoGameFound, SessionColumns;
    if Possible(g, e) {
      match e {
        case Found(newId, ok) => GoneFound(g, newId, ok, id);
        case NotFound(ok, at) => GoneUnfound(g, ok, at, id);
        case Sampled(sample, ok) => GoneSampled(g, sample, ok, id);
        case _ =>
      }
    }
  }

  lemma GoneFound(g: Gaming, newId: Id, ok: bool, id: Id)
    requires id !in g.rows && id in g.used && !IsCurrent(g, id) && newId != id
    ensures var after := GameFound(g, newId, ok); id !in after.rows && id in after.used && !IsCurrent(after, id)
  {
    hide SessionColumns, NewAccumulators;
  }

  lemma GoneUnfound(g: Gaming, ok: bool, at: real, id: Id)
    requires id !in g.rows && id in g.used && !IsCurrent(g, id)
    ensures var after := NoGameFound(g, ok, at); id !in after.rows && id in after.used && !IsCurrent(after, id)
  {
    hide SessionColumns;
  }

  lemma GoneSampled(g: Gaming, sample: Sample, ok: bool, id: Id)
    requires id !in g.rows && id in g.used && !IsCurrent(g, id)
    ensures var after := SampleTaken(g, sample, ok); id !in after.rows && id in after.used && !IsCurrent(after, id)
  {
    hide SessionColumns, AddSample;
  }

  // ---------------------------------------------------------------- the sections, exactly

  /** Only the row of session id may differ. */
  ghost predicate OnlyRowOf(id: Id, rows: map<Id, Row>, after: map<Id, Row>)
  {
    forall k :: k != id ==> (k in after <==> k in rows) && (k in rows ==> after[k] == rows[k])
  }

  /**
   A scan that finds a game joins the running session, or begins one without samples under a new id, whose
   row is active; when the insert fails there is a session without a row, and the scan ends.
   */
  lemma FoundExactly(g: Gaming, newId: Id, ok: bool)
    ensures var after := GameFound(g, newId, ok);
      && after.deleting == g.deleting && after.cleared == g.cleared
      && (g.current.Some? ==>
            && after.current == g.current && after.rows == g.rows && after.used == g.used
            && after.sampling == g.sampling + multiset{g.current.value.id})
      && (g.current.None? ==>
            && IsCurrent(after, newId) && after.current.value.samples == [] && after.current.value.totalSamples == 0
            && after.used == g.used + {newId} && OnlyRowOf(newId, g.rows, after.rows)
            && after.sampling == (if ok then g.sampling + multiset{newId} else g.sampling)
            && (!ok ==> after.rows == g.rows)
            && (ok ==> newId in after.rows && after.rows[newId].status == Active && after.rows[newId].endedAt == None))
  {
    hide SessionColumns, NewAccumulators;
  }

  /** A scan that finds none completes the running session, with its end and its columns, if the write works. */
  lemma NotFoundExactly(g: Gaming, ok: bool, now: real)
    ensures var after := NoGameFound(g, ok, now);
      && (g.current.None? || !ok ==> after == g)
      && (g.current.Some? && ok ==>
            var s := g.current.value;
            && after == g.(current := None, rows := after.rows) && OnlyRowOf(s.id, g.rows, after.rows)
            && (s.id in after.rows <==> s.id in g.rows)
            && (s.id in g.rows ==> after.rows[s.id] == Row(Completed, Some(now), SessionColumns(s))))
  {
    hide SessionColumns;
  }

  /**
   A sample is added to the session it was taken for, if that one still runs, and then written to its row,
   if there is one and the write works; in any case the scan is over.
   */
  lemma SampledExactly(g: Gaming, sample: Sample, ok: bool)
    ensures var after := SampleTaken(g, sample, ok);
      && after.sampling == g.sampling - multiset{sample.takenFor}
      && after == g.(sampling := after.sampling, current := after.current, rows := after.rows)
      && (!IsCurrent(g, sample.takenFor) ==> after.current == g.current && after.rows == g.rows)
      && (IsCurrent(g, sample.takenFor) ==>
            && IsCurrent(after, sample.takenFor)
            && var s, more := g.current.value, after.current.value;
            && more.samples == s.samples + [sample] && more.totalSamples == s.totalSamples + 1
            && more.accumulators == AddSample(s.accumulators, sample)
            && OnlyRowOf(s.id, g.rows, after.rows) && (s.id in after.rows <==> s.id in g.rows)
            && (s.id in g.rows ==>
                  after.rows[s.id] == if ok then Row(Active, None, SessionColumns(more)) else g.rows[s.id]))
  {
    hide SessionColumns, AddSample;
  }

  /** A detector that starts ends every active row as interrupted now, and leaves all others alone. */
  lemma StartedExactly(g: Gaming, alive: bool, ok: bool, now: real)
    ensures var after := StartDetector(g, alive, ok, now);
      && (alive || !ok ==> after == g)
      && (!alive && ok ==>
            && after == g.(rows := after.rows, cleared := true) && after.rows.Keys == g.rows.Keys
            && forall id :: id in g.rows ==>
                 after.rows[id] ==
                   if g.rows[id].status == Active then Row(Interrupted, Some(now), g.rows[id].columns) else g.rows[id])
  {
  }

  /** A deletion is refused exactly for the running session; otherwise it takes the row away, if the write works. */
  lemma DeletedExactly(g: Gaming, id: Id, ok: bool)
    ensures DeleteChecked(g, id)
         == if IsCurrent(g, id) then g else g.(deleting := g.deleting + {id}, used := g.used + {id})
    ensures var after := DeleteRow(g, id, ok);
      && after == g.(deleting := g.deleting - {id}, rows := after.rows) && OnlyRowOf(id, g.rows, after.rows)
      && (ok ==> id !in after.rows) && (!ok ==> after.rows == g.rows)
  {
  }

  /** A program that ends keeps nothing but the table. */
  lemma RestartedExactly(g: Gaming)
    ensures var after := ProgramRestarts(g);
      after.rows == g.rows && after.used == g.used && after.current == None && after.sampling == multiset{}
      && after.deleting == {} && !after.cleared
  {
  }

  /** Every event of a run is one of these sections, and happens as it stands. */
  lemma EventsAreSections(g: Gaming, e: Event)
    requires Possible(g, e)
    ensures e.Found? ==> Step(g, e) == GameFound(g, e.newId, e.insertOk)
    ensures e.NotFound? ==> Step(g, e) == NoGameFound(g, e.updateOk, e.at)
    ensures e.Sampled? ==> Step(g, e) == SampleTaken(g, e.sample, e.writeOk)
    ensures e.Started? ==> Step(g, e) == StartDetector(g, e.threadAlive, e.closeOk, e.now)
    ensures e.DeleteAsked? ==> Step(g, e) == DeleteChecked(g, e.id)
    ensures e.DeleteDone? ==> Step(g, e) == DeleteRow(g, e.deletedId, e.deleteOk)
    ensures e.Restarted? ==> Step(g, e) == ProgramRestarts(g)
  {
    hide GameFound, NoGameFound, SampleTaken, StartDetector, DeleteChecked, DeleteRow, ProgramRestarts;
  }

  // ---------------------------------------------------------------- the service

  class GamingService {
    var current: Option<Session>
    var rows: map<Id, Row>
    ghost var sampling: multiset<Id>
    ghost var deleting: set<Id>
    ghost var used: set<Id>
    ghost var cleared: bool

    ghost function State(): Gaming
      reads this
    {
      Gaming(current, rows, sampling, deleting, used, cleared)
    }

    /** `_update_session`; says whether the write went through. */
    method UpdateSession(session: Session, status: RowStatus, endedAt: Option<real>, dbOk: bool) returns (ok: bool)
      modifies this`rows
      ensures ok == dbOk
      ensures rows == if dbOk then UpdateRow(old(rows), session.id, Row(status, endedAt, SessionColumns(session)))
                      else old(rows)
    {
      if dbOk && session.id in rows {
        rows := rows[session.id := Row(status, endedAt, SessionColumns(session))];
      }
      ok := dbOk;
    }

    /** The part of `scan_once` under the first lock; returns the session to sample. */
    method Detect(found: bool, newId: Id, dbOk: bool, now: real) returns (toSample: Option<Id>)
      requires newId !in used
      modifies this
      ensures State() == if found then GameFound(old(State()), newId, dbOk) else NoGameFound(old(State()), dbOk, now)
      ensures old(Inv(State())) ==> Inv(State())
      ensures toSample.Some? <==> found && (old(current).Some? || dbOk)
      ensures toSample.Some? ==> IsCurrent(State(), toSample.value) && toSample.value in sampling
    {
      hide Inv;
      if Inv(State()) { DetectKeeps(State(), found, newId, dbOk, now); }
      toSample := None;
      if found {
        if current.None? {
          var session := NewSession(newId);
          current := Some(session);
          used := used + {newId};
          if !dbOk {
            return;
          }
          rows := rows[newId := Row(Active, None, SessionColumns(session))];
        }
        toSample := Some(current.value.id);
        sampling := sampling + multiset{current.value.id};
      } else if current.Some? {
        var ok := UpdateSession(current.value, Completed, Some(now), dbOk);
        if ok {
          current := None;
        }
      }
    }

    /** The part of `scan_once` under the second lock. */
    method Record(sample: Sample, dbOk: bool)
      requires sample.takenFor in sampling
      modifies this
      ensures State() == SampleTaken(old(State()), sample, dbOk)
      ensures old(Inv(State())) ==> Inv(State())
    {
      hide Inv;
      if Inv(State()) { SampledKeeps(State(), sample, dbOk); }
      hide AddSample, SessionColumns, UpdateRow;
      sampling := sampling - multiset{sample.takenFor};
      if current.Some? && current.value.id == sample.takenFor {
        var s := current.value;
        var more := Session(s.id, AddSample(s.accumulators, sample), s.totalSamples + 1, s.samples + [sample]);
        current := Some(more);
        var ok := UpdateSession(more, Active, None, dbOk);
      }
    }

    /** `_close_interrupted_sessions`: every row still active gets an end, one by one. */
    method CloseInterruptedSessions(now: real)
      modifies this`rows
      ensures rows == CloseInterrupted(old(rows), now)
    {
      var todo := set id | id in rows && rows[id].status.Active?;
      while todo != {}
        invariant rows.Keys == old(rows).Keys
        invariant forall id :: id in todo ==> id in rows && rows[id] == old(rows)[id] && rows[id].status.Active?
        invariant forall id :: id in rows && id !in todo ==> rows[id] == CloseInterrupted(old(rows), now)[id]
        decreases todo
      {
        var id :| id in todo;
        todo := todo - {id};
        rows := rows[id := Row(Interrupted, Some(now), rows[id].columns)];
      }
    }

    /** `start`; a database error leaves the table to its rollback. */
    method Start(threadAlive: bool, dbOk: bool, now: real)
      modifies this
      ensures State() == StartDetector(old(State()), threadAlive, dbOk, now)
      ensures old(Inv(State())) ==> Inv(State())
    {
      hide Inv;
      if Inv(State()) { OthersKeep(State(), Started(threadAlive, dbOk, now)); }
      if threadAlive || !dbOk {
        return;
      }
      CloseInterruptedSessions(now);
      cleared := true;
    }

    /** `delete_session`, the check under the lock. */
    method AskToDelete(id: Id) returns (allowed: bool)
      modifies this
      ensures State() == DeleteChecked(old(State()), id)
      ensures old(Inv(State())) ==> Inv(State())
      ensures allowed <==> !IsCurrent(State(), id)
    {
      hide Inv;
      if Inv(State()) { OthersKeep(State(), DeleteAsked(id)); }
      if current.Some? && current.value.id == id {
        return false;
      }
      deleting, used := deleting + {id}, used + {id};
      return true;
    }

    /** `delete_session`, the statement after it; says whether there was such a row. */
    method Delete(id: Id, dbOk: bool) returns (deleted: bool)
      requires id in deleting
      modifies this
      ensures State() == DeleteRow(old(State()), id, dbOk)
      ensures old(Inv(State())) ==> Inv(State())
      ensures deleted <==> dbOk && id in old(rows)
    {
      hide Inv;
      if Inv(State()) { OthersKeep(State(), DeleteDone(id, dbOk)); }
      deleting := deleting - {id};
      deleted := dbOk && id in rows;
      if dbOk {
        rows := rows - {id};
      }
    }
  }
}
