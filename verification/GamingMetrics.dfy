/**
 The running averages and peaks of a gaming session, and the columns stored for it.
 Numbers are exact reals; a missing reading is None.
 */
module GamingMetrics {
  import opened Options
  import opened Rounding

  datatype Metric = CpuUsage | GpuUsage | RamUsage | CpuTemperature | GpuTemperature | CpuClock | GpuPower | CpuPower

  /** Temperatures, clock and power count a reading of zero or less as missing. */
  predicate IncludesZero(m: Metric)
  {
    m.CpuUsage? || m.GpuUsage? || m.RamUsage?
  }

  /** Metrics with a stored peak; usage, memory and temperatures have one. */
  predicate HasPeak(m: Metric)
  {
    IncludesZero(m) || m.CpuTemperature? || m.GpuTemperature?
  }

  // ---------------------------------------------------------------- one accumulator

  datatype Accumulator = Accumulator(includeZero: bool, total: real, count: nat, maximum: Option<real>)

  function Max(a: real, b: real): real
  {
    if a < b then b else a
  }

  predicate Counts(includeZero: bool, v: Option<real>)
  {
    v.Some? && (includeZero || v.value > 0.0)
  }

  function Added(a: Accumulator, v: Option<real>): Accumulator
  {
    if !Counts(a.includeZero, v) then a
    else
      Accumulator(a.includeZero, a.total + v.value, a.count + 1,
        Some(if a.maximum.None? then v.value else Max(a.maximum.value, v.value)))
  }

  function Average(a: Accumulator): Option<real>
  {
    if a.count == 0 then None else Some(a.total / a.count as real)
  }

  class MetricAccumulator {
    const includeZero: bool
    var total: real
    var count: nat
    var maximum: Option<real>

    function State(): Accumulator
      reads this
    {
      Accumulator(includeZero, total, count, maximum)
    }

    constructor (includeZero: bool)
      ensures State() == Accumulator(includeZero, 0.0, 0, None)
    {
      this.includeZero := includeZero;
      total, count, maximum := 0.0, 0, None;
    }

    method Add(v: Option<real>)
      modifies this
      ensures State() == Added(old(State()), v)
    {
      if v.None? {
        return;
      }
      if !includeZero && v.value <= 0.0 {
        return;
      }
      total := total + v.value;
      count := count + 1;
      maximum := Some(if maximum.None? then v.value else Max(maximum.value, v.value));
    }
  }

  // ---------------------------------------------------------------- recomputation from the full list

  /** The readings that count. */
  function Counted(includeZero: bool, vs: seq<Option<real>>): seq<real>
  {
    if vs == [] then []
    else
      var last := vs[|vs| - 1];
      Counted(includeZero, vs[..|vs| - 1]) + if Counts(includeZero, last) then [last.value] else []
  }

  function Sum(xs: seq<real>): real
  {
    if xs == [] then 0.0 else Sum(xs[..|xs| - 1]) + xs[|xs| - 1]
  }

  /** m is the greatest of xs, or None when there is none. */
  ghost predicate IsMaximum(xs: seq<real>, m: Option<real>)
  {
    if xs == [] then m == None
    else m.Some? && m.value in xs && forall x :: x in xs ==> x <= m.value
  }

  /** The accumulator holds what the full list of readings gives. */
  ghost predicate Summarises(a: Accumulator, vs: seq<Option<real>>)
  {
    var xs := Counted(a.includeZero, vs);
    a.total == Sum(xs) && a.count == |xs| && IsMaximum(xs, a.maximum)
  }

  lemma AddSummarises(a: Accumulator, vs: seq<Option<real>>, v: Option<real>)
    requires Summarises(a, vs)
    ensures Summarises(Added(a, v), vs + [v])
  {
    assert (vs + [v])[..|vs|] == vs;
    if Counts(a.includeZero, v) {
      var xs := Counted(a.includeZero, vs);
      var more := xs + [v.value];
      assert more[..|more| - 1] == xs;
      assert more[|xs|] == v.value;
      assert forall x :: x in more <==> x in xs || x == v.value;
      assert Counted(a.includeZero, vs + [v]) == more;
    } else {
      assert Counted(a.includeZero, vs + [v]) == Counted(a.includeZero, vs);
    }
  }

  lemma {:induction false} SumAtMost(xs: seq<real>, m: real)
    requires forall x :: x in xs ==> x <= m
    ensures Sum(xs) <= |xs| as real * m
  {
    if xs != [] {
      var front, last := xs[..|xs| - 1], xs[|xs| - 1];
      assert last in xs;
      assert forall x :: x in front ==> x in xs;
      SumAtMost(front, m);
      assert |xs| as real * m == |front| as real * m + m;
    }
  }

  lemma QuotientAtMost(t: real, n: nat, m: real)
    requires n > 0 && t <= n as real * m
    ensures t / n as real <= m
  {
  }

  function RoundedOrNone(v: Option<real>): Option<real>
  {
    if v.None? then None else Some(Round(v.value, 100))
  }

  /** The stored average is at most the stored peak, also after both are rounded. */
  lemma AverageAtMostPeak(a: Accumulator, vs: seq<Option<real>>)
    requires Summarises(a, vs)
    ensures Average(a).Some? <==> a.maximum.Some?
    ensures Average(a).Some? ==>
              RoundedOrNone(Average(a)).value <= RoundedOrNone(a.maximum).value
  {
    if a.count > 0 {
      SumAtMost(Counted(a.includeZero, vs), a.maximum.value);
      QuotientAtMost(a.total, a.count, a.maximum.value);
      RoundMonotone(a.total / a.count as real, a.maximum.value, 100);
    }
  }

  // ---------------------------------------------------------------- samples and columns

  /** One reading of all metrics; `takenFor` records the session it was taken for. */
  datatype Sample = Sample(takenFor: string, readings: map<Metric, real>)

  function Reading(s: Sample, m: Metric): Option<real>
  {
    if m in s.readings then Some(s.readings[m]) else None
  }

  function ReadingsOf(samples: seq<Sample>, m: Metric): seq<Option<real>>
  {
    seq(|samples|, i requires 0 <= i < |samples| => Reading(samples[i], m))
  }

  type Accumulators = map<Metric, Accumulator>

  function NewAccumulators(): Accumulators
  {
    map m: Metric | true :: Accumulator(IncludesZero(m), 0.0, 0, None)
  }

  function AddSample(accs: Accumulators, s: Sample): Accumulators
  {
    map m | m in accs :: Added(accs[m], Reading(s, m))
  }

  ghost predicate AllSummarise(accs: Accumulators, samples: seq<Sample>)
  {
    forall m: Metric ::
      m in accs && accs[m].includeZero == IncludesZero(m) && Summarises(accs[m], ReadingsOf(samples, m))
  }

  lemma NewSummarise()
    ensures AllSummarise(NewAccumulators(), [])
  {
  }

  lemma AddSampleSummarises(accs: Accumulators, samples: seq<Sample>, s: Sample)
    requires AllSummarise(accs, samples)
    ensures AllSummarise(AddSample(accs, s), samples + [s])
  {
    hide Summarises;
    forall m: Metric
      ensures m in AddSample(accs, s) && Summarises(AddSample(accs, s)[m], ReadingsOf(samples + [s], m))
    {
      AddSummarises(accs[m], ReadingsOf(samples, m), Reading(s, m));
      assert ReadingsOf(samples + [s], m) == ReadingsOf(samples, m) + [Reading(s, m)];
    }
  }

  /** The stored columns of a session. */
  datatype Columns = Columns(averages: map<Metric, Option<real>>, peaks: map<Metric, Option<real>>, totalSamples: nat)

  function ColumnsOf(accs: Accumulators, totalSamples: nat): Columns
  {
    Columns(
      map m | m in accs :: RoundedOrNone(Average(accs[m])),
      map m | m in accs && HasPeak(m) :: RoundedOrNone(accs[m].maximum),
      totalSamples)
  }

  /** The columns are those the full list of samples gives, computed from scratch. */
  ghost predicate ColumnsMatch(c: Columns, samples: seq<Sample>)
  {
    && c.totalSamples == |samples|
    && (forall m: Metric :: m in c.averages
          && var xs := Counted(IncludesZero(m), ReadingsOf(samples, m));
             c.averages[m] == (if xs == [] then None else Some(Round(Sum(xs) / |xs| as real, 100))))
    && (forall m: Metric :: HasPeak(m) ==>
          (m in c.peaks
           && exists peak :: IsMaximum(Counted(IncludesZero(m), ReadingsOf(samples, m)), peak)
                             && c.peaks[m] == RoundedOrNone(peak)))
  }

  lemma SummaryGivesColumns(accs: Accumulators, samples: seq<Sample>)
    requires AllSummarise(accs, samples)
    ensures ColumnsMatch(ColumnsOf(accs, |samples|), samples)
  {
    hide IsMaximum, Sum, Counted;
    var c := ColumnsOf(accs, |samples|);
    forall m: Metric
      ensures m in c.averages
      ensures var xs := Counted(IncludesZero(m), ReadingsOf(samples, m));
        c.averages[m] == (if xs == [] then None else Some(Round(Sum(xs) / |xs| as real, 100)))
    {
      assert Summarises(accs[m], ReadingsOf(samples, m));
    }
    forall m: Metric | HasPeak(m)
      ensures m in c.peaks
      ensures exists peak :: IsMaximum(Counted(IncludesZero(m), ReadingsOf(samples, m)), peak)
                             && c.peaks[m] == RoundedOrNone(peak)
    {
      assert Summarises(accs[m], ReadingsOf(samples, m));
      assert IsMaximum(Counted(IncludesZero(m), ReadingsOf(samples, m)), accs[m].maximum);
    }
  }

  /** In the stored columns every average is at most its matching peak. */
  lemma AveragesAtMostPeaks(accs: Accumulators, samples: seq<Sample>, m: Metric)
    requires AllSummarise(accs, samples) && HasPeak(m)
    ensures var c := ColumnsOf(accs, |samples|);
      && m in c.averages && m in c.peaks
      && (c.averages[m].Some? <==> c.peaks[m].Some?)
      && (c.averages[m].Some? ==> c.averages[m].value <= c.peaks[m].value)
  {
    AverageAtMostPeak(accs[m], ReadingsOf(samples, m));
  }


  // ---------------------------------------------------------------- which readings count

  /** The readings of usage and memory all count; of temperatures, clock and power only those above zero. */
  lemma CountsExactly(m: Metric, v: Option<real>)
    ensures Counts(IncludesZero(m), v) <==>
              v.Some? && (m.CpuUsage? || m.GpuUsage? || m.RamUsage? || v.value > 0.0)
  {
  }

  /** A position of the list whose reading counts for this metric. */
  predicate CountsAt(samples: seq<Sample>, m: Metric, i: int)
  {
    && 0 <= i < |samples| && m in samples[i].readings
    && (m == CpuUsage || m == GpuUsage || m == RamUsage || samples[i].readings[m] > 0.0)
  }

  /** The sum and the number of the readings of a metric that count, sample by sample. */
  function TotalOf(samples: seq<Sample>, m: Metric): (real, nat)
  {
    if samples == [] then (0.0, 0)
    else
      var (total, count) := TotalOf(samples[..|samples| - 1], m);
      if CountsAt(samples, m, |samples| - 1) then (total + samples[|samples| - 1].readings[m], count + 1)
      else (total, count)
  }

  lemma CountedStep(samples: seq<Sample>, m: Metric)
    requires samples != []
    ensures var front, last := samples[..|samples| - 1], samples[|samples| - 1];
      Counted(IncludesZero(m), ReadingsOf(samples, m)) == Counted(IncludesZero(m), ReadingsOf(front, m))
        + if CountsAt(samples, m, |samples| - 1) then [last.readings[m]] else []
  {
    var front, last := samples[..|samples| - 1], samples[|samples| - 1];
    assert ReadingsOf(samples, m)[..|samples| - 1] == ReadingsOf(front, m);
    assert ReadingsOf(samples, m)[|samples| - 1] == Reading(last, m);
    CountsExactly(m, Reading(last, m));
    hide Counts, IncludesZero;
  }

  lemma SumStep(xs: seq<real>, x: real)
    ensures Sum(xs + [x]) == Sum(xs) + x
  {
    assert (xs + [x])[..|xs|] == xs;
  }

  lemma {:induction false} TotalIsSum(samples: seq<Sample>, m: Metric)
    ensures var xs := Counted(IncludesZero(m), ReadingsOf(samples, m));
      TotalOf(samples, m) == (Sum(xs), |xs|)
  {
    if samples == [] {
      NothingTotals(m);
    } else {
      var front, last := samples[..|samples| - 1], samples[|samples| - 1];
      TotalIsSum(front, m);
      CountedStep(samples, m);
      hide Counted, Sum, CountsAt, IncludesZero, ReadingsOf, Counts;
      TotalStep(samples, m);
      hide TotalOf;
      var xs := Counted(IncludesZero(m), ReadingsOf(front, m));
      if CountsAt(samples, m, |samples| - 1) {
        CountsHere(samples, m, |samples| - 1);
        SumStep(xs, last.readings[m]);
      } else {
        assert xs + [] == xs;
      }
    }
  }

  lemma NothingTotals(m: Metric)
    ensures Sum(Counted(IncludesZero(m), ReadingsOf([], m))) == 0.0
    ensures |Counted(IncludesZero(m), ReadingsOf([], m))| == 0 && TotalOf([], m) == (0.0, 0)
  {
  }

  lemma TotalStep(samples: seq<Sample>, m: Metric)
    requires samples != []
    ensures var last := |samples| - 1;
      var (total, count) := TotalOf(samples[..last], m);
      TotalOf(samples, m)
        == if CountsAt(samples, m, last) then (total + samples[last].readings[m], count + 1) else (total, count)
  {
  }

  lemma CountsHere(samples: seq<Sample>, m: Metric, i: int)
    requires CountsAt(samples, m, i)
    ensures 0 <= i < |samples| && m in samples[i].readings
  {
  }

  lemma {:induction false} CountedValues(samples: seq<Sample>, m: Metric, x: real)
    ensures x in Counted(IncludesZero(m), ReadingsOf(samples, m)) <==>
              exists i :: CountsAt(samples, m, i) && samples[i].readings[m] == x
  {
    if samples != [] {
      var front := samples[..|samples| - 1];
      CountedValues(front, m, x);
      CountedStep(samples, m);
      hide Counted, IncludesZero, ReadingsOf;
      forall i | 0 <= i < |front| ensures CountsAt(front, m, i) <==> CountsAt(samples, m, i) {
        assert front[i] == samples[i];
      }
      if i :| CountsAt(samples, m, i) && samples[i].readings[m] == x {
        assert i < |front| ==> CountsAt(front, m, i) && front[i].readings[m] == x;
      }
      if i :| CountsAt(front, m, i) && front[i].readings[m] == x {
        assert CountsAt(samples, m, i) && samples[i].readings[m] == x;
      }
    }
  }

  /** p is the rounded greatest of the readings that count. */
  ghost predicate IsPeak(samples: seq<Sample>, m: Metric, p: Option<real>)
  {
    if TotalOf(samples, m).1 == 0 then p == None
    else exists i :: CountsAt(samples, m, i) && p == Some(Round(samples[i].readings[m], 100))
                     && forall j :: CountsAt(samples, m, j) ==> samples[j].readings[m] <= samples[i].readings[m]
  }

  /** Usage, memory and temperatures have a stored peak; clock and power have none. */
  predicate Peaks(m: Metric)
  {
    !m.CpuClock? && !m.GpuPower? && !m.CpuPower?
  }

  /**
   The columns of a session, said of its samples: the number of samples; for each of the eight metrics the mean
   of the readings that count, to two decimals; and for usage, memory and temperatures the greatest of them.
   */
  ghost predicate ColumnsExactly(c: Columns, samples: seq<Sample>)
  {
    && c.totalSamples == |samples|
    && (forall m: Metric :: m in c.averages && MeanIs(samples, m, c.averages[m]))
    && (forall m: Metric :: Peaks(m) ==> m in c.peaks && IsPeak(samples, m, c.peaks[m]))
  }

  predicate MeanIs(samples: seq<Sample>, m: Metric, mean: Option<real>)
  {
    var (total, count) := TotalOf(samples, m);
    mean == if count == 0 then None else Some(Round(total / count as real, 100))
  }

  lemma PeakFound(samples: seq<Sample>, m: Metric, peak: Option<real>)
    requires IsMaximum(Counted(IncludesZero(m), ReadingsOf(samples, m)), peak)
    ensures IsPeak(samples, m, RoundedOrNone(peak))
  {
    var xs := Counted(IncludesZero(m), ReadingsOf(samples, m));
    TotalIsSum(samples, m);
    hide Counted, Round, TotalOf;
    if xs != [] {
      CountedValues(samples, m, peak.value);
      var i :| CountsAt(samples, m, i) && samples[i].readings[m] == peak.value;
      forall j | CountsAt(samples, m, j) ensures samples[j].readings[m] <= samples[i].readings[m] {
        CountedValues(samples, m, samples[j].readings[m]);
      }
    }
  }

  /** Columns that match a recomputation are these. */
  lemma MatchExactly(c: Columns, samples: seq<Sample>)
    requires ColumnsMatch(c, samples)
    ensures ColumnsExactly(c, samples)
  {
    hide Counted, Sum, IsMaximum, IsPeak, Round, TotalOf;
    forall m: Metric ensures m in c.averages && MeanIs(samples, m, c.averages[m]) {
      TotalIsSum(samples, m);
    }
    forall m: Metric | Peaks(m) ensures m in c.peaks && IsPeak(samples, m, c.peaks[m]) {
      assert HasPeak(m);
      var peak :| IsMaximum(Counted(IncludesZero(m), ReadingsOf(samples, m)), peak)
                  && c.peaks[m] == RoundedOrNone(peak);
      PeakFound(samples, m, peak);
    }
  }

  /** What the accumulators of a session store, and for which metrics a peak. */
  lemma StoresExactly(accs: Accumulators, samples: seq<Sample>)
    requires AllSummarise(accs, samples)
    ensures ColumnsExactly(ColumnsOf(accs, |samples|), samples)
    ensures forall m: Metric :: m in ColumnsOf(accs, |samples|).peaks <==> Peaks(m)
  {
    SummaryGivesColumns(accs, samples);
    MatchExactly(ColumnsOf(accs, |samples|), samples);
    hide ColumnsExactly, ColumnsMatch, Summarises;
  }
}
