/**
 The health score of a device snapshot: five signal scores, weighted by the chosen lens.
 Weights are hundredths; a reading that is not known is None.
 */
module Health {
  import opened Arithmetic
  import opened Options

  datatype Lens = Balanced | Performance | Quiet | Efficiency | Reliability

  datatype Snapshot = Snapshot(
    cpu: Option<real>, memory: Option<real>, storage: Option<real>,
    battery: Option<int>, charging: bool, thermal: Option<int>)

  /** In the order of the weights. */
  datatype Signals = Signals(performance: int, memory: int, thermal: int, battery: int, storage: int)

  // ---------------------------------------------------------------- arithmetic

  /** Kotlin's roundToInt: to the nearest whole number, ties upwards. */
  function RoundToInt(x: real): int
  {
    (x + 0.5).Floor
  }

  function Clamp(n: int): int
  {
    if n < 0 then 0 else if n > 100 then 100 else n
  }

  lemma RoundToIntMonotone(x: real, y: real)
    requires x <= y
    ensures RoundToInt(x) <= RoundToInt(y)
  {
  }

  // ---------------------------------------------------------------- the five signals

  function ScoreFromPressure(value: Option<real>, warningStart: real, multiplier: real): int
  {
    if value.None? then 88
    else
      var excess := if value.value - warningStart < 0.0 then 0.0 else value.value - warningStart;
      Clamp(RoundToInt(100.0 - excess * multiplier))
  }

  function ThermalScore(level: Option<int>): int
  {
    if level.None? then 88
    else if level.value == 0 then 100
    else if level.value == 1 then 92
    else if level.value == 2 then 72
    else if level.value == 3 then 48
    else 24
  }

  function BatteryScore(percentage: Option<int>, charging: bool): int
  {
    if percentage.None? then 88
    else if charging then 96
    else if percentage.value >= 55 then 94
    else if percentage.value >= 30 then 78
    else if percentage.value >= 15 then 55
    else 28
  }

  function SignalsOf(s: Snapshot): Signals
  {
    Signals(
      ScoreFromPressure(s.cpu, 62.0, 1.15),
      ScoreFromPressure(s.memory, 55.0, 1.3),
      ThermalScore(s.thermal),
      BatteryScore(s.battery, s.charging),
      ScoreFromPressure(s.storage, 72.0, 1.35))
  }

  // ---------------------------------------------------------------- the overall score

  function WeightsOf(lens: Lens): Signals
  {
    match lens
    case Balanced => Signals(26, 22, 22, 16, 14)
    case Performance => Signals(45, 22, 14, 8, 11)
    case Quiet => Signals(12, 16, 38, 25, 9)
    case Efficiency => Signals(15, 16, 23, 36, 10)
    case Reliability => Signals(16, 27, 29, 10, 18)
  }

  function Weighted(s: Signals, w: Signals): int
  {
    s.performance * w.performance + s.memory * w.memory + s.thermal * w.thermal
    + s.battery * w.battery + s.storage * w.storage
  }

  function Overall(s: Snapshot, lens: Lens): int
  {
    Clamp(RoundToInt(Weighted(SignalsOf(s), WeightsOf(lens)) as real / 100.0))
  }

  // ---------------------------------------------------------------- between the signals

  function Min(a: int, b: int): int
  {
    if a < b then a else b
  }

  function Max(a: int, b: int): int
  {
    if a < b then b else a
  }

  function Worst(s: Signals): int
  {
    Min(s.performance, Min(s.memory, Min(s.thermal, Min(s.battery, s.storage))))
  }

  function Best(s: Signals): int
  {
    Max(s.performance, Max(s.memory, Max(s.thermal, Max(s.battery, s.storage))))
  }

  lemma SignalsInRange(s: Snapshot)
    ensures 0 <= Worst(SignalsOf(s)) <= Best(SignalsOf(s)) <= 100
  {
    hide RoundToInt;
  }

  lemma WeightedBetween(s: Signals, lens: Lens)
    ensures 100 * Worst(s) <= Weighted(s, WeightsOf(lens)) <= 100 * Best(s)
  {
    var low, high := Worst(s), Best(s);
    assert low <= s.performance <= high && low <= s.memory <= high && low <= s.thermal <= high;
    assert low <= s.battery <= high && low <= s.storage <= high;
    hide Worst, Best;
  }

  lemma RoundBetween(n: int, low: int, high: int)
    requires 100 * low <= n <= 100 * high
    ensures low <= RoundToInt(n as real / 100.0) <= high
  {
    assert low as real <= n as real / 100.0 <= high as real;
  }

  /** Whatever the lens, the score lies between the worst and the best of the five signals. */
  lemma OverallBetweenSignals(s: Snapshot, lens: Lens)
    ensures 0 <= Worst(SignalsOf(s)) <= Overall(s, lens) <= Best(SignalsOf(s)) <= 100
  {
    var signals := SignalsOf(s);
    SignalsInRange(s);
    WeightedBetween(signals, lens);
    hide SignalsOf, Weighted, Worst, Best, RoundToInt;
    RoundBetween(Weighted(signals, WeightsOf(lens)), Worst(signals), Best(signals));
  }

  // ---------------------------------------------------------------- more pressure, no better score

  ghost predicate NoLess(a: Option<real>, b: Option<real>)
  {
    a == b || (a.Some? && b.Some? && a.value <= b.value)
  }

  ghost predicate Hotter(a: Option<int>, b: Option<int>)
  {
    a == b || (a.Some? && b.Some? && 0 <= a.value <= b.value)
  }

  /** The reserve falls, or the charger is unplugged. */
  ghost predicate Drained(a: Snapshot, b: Snapshot)
  {
    && (b.charging ==> a.charging)
    && (a.battery == b.battery || (a.battery.Some? && b.battery.Some? && b.battery.value <= a.battery.value))
  }

  /** Every known pressure of b is at least that of a, and the same readings are known. */
  ghost predicate MorePressure(a: Snapshot, b: Snapshot)
  {
    NoLess(a.cpu, b.cpu) && NoLess(a.memory, b.memory) && NoLess(a.storage, b.storage)
    && Hotter(a.thermal, b.thermal) && Drained(a, b)
  }

  ghost predicate NoBetter(a: Signals, b: Signals)
  {
    b.performance <= a.performance && b.memory <= a.memory && b.thermal <= a.thermal
    && b.battery <= a.battery && b.storage <= a.storage
  }

  lemma PressureLowers(a: Option<real>, b: Option<real>, warningStart: real, multiplier: real)
    requires NoLess(a, b) && multiplier > 0.0
    ensures ScoreFromPressure(b, warningStart, multiplier) <= ScoreFromPressure(a, warningStart, multiplier)
  {
    if a.Some? && b.Some? {
      var x := if a.value - warningStart < 0.0 then 0.0 else a.value - warningStart;
      var y := if b.value - warningStart < 0.0 then 0.0 else b.value - warningStart;
      ProductMonotone(x, y, multiplier);
      RoundToIntMonotone(100.0 - y * multiplier, 100.0 - x * multiplier);
    }
  }

  lemma SignalsFall(a: Snapshot, b: Snapshot)
    requires MorePressure(a, b)
    ensures NoBetter(SignalsOf(a), SignalsOf(b))
  {
    PressureLowers(a.cpu, b.cpu, 62.0, 1.15);
    PressureLowers(a.memory, b.memory, 55.0, 1.3);
    PressureLowers(a.storage, b.storage, 72.0, 1.35);
    hide ScoreFromPressure;
  }

  lemma WeightedFalls(a: Signals, b: Signals, lens: Lens)
    requires NoBetter(a, b)
    ensures Weighted(b, WeightsOf(lens)) <= Weighted(a, WeightsOf(lens))
  {
  }

  /** For every lens, the score never rises when pressures rise. */
  lemma OverallFalls(a: Snapshot, b: Snapshot, lens: Lens)
    requires MorePressure(a, b)
    ensures Overall(b, lens) <= Overall(a, lens)
  {
    SignalsFall(a, b);
    hide SignalsOf, NoBetter;
    WeightedFalls(SignalsOf(a), SignalsOf(b), lens);
    hide Weighted, RoundToInt;
    RoundToIntMonotone(Weighted(SignalsOf(b), WeightsOf(lens)) as real / 100.0,
      Weighted(SignalsOf(a), WeightsOf(lens)) as real / 100.0);
  }

  // ---------------------------------------------------------------- thermal levels below zero

  /** The score of a level below zero is the one of level four and above. */
  predicate Scored24(level: int)
  {
    level < 0 || level >= 4
  }

  lemma RoundApart(m: int, n: int)
    requires m + 100 <= n
    ensures RoundToInt(m as real / 100.0) < RoundToInt(n as real / 100.0)
  {
    assert m as real / 100.0 + 1.0 <= n as real / 100.0;
  }

  lemma OverallIsRounded(s: Snapshot, lens: Lens)
    ensures Overall(s, lens) == RoundToInt(Weighted(SignalsOf(s), WeightsOf(lens)) as real / 100.0)
  {
    SignalsInRange(s);
    WeightedBetween(SignalsOf(s), lens);
    hide SignalsOf, Weighted, Worst, Best, RoundToInt;
    RoundBetween(Weighted(SignalsOf(s), WeightsOf(lens)), Worst(SignalsOf(s)), Best(SignalsOf(s)));
  }

  /**
   Raising the thermal level alone, from any integer: the score does not rise exactly when the level was
   not below zero, or ends where a level below zero scores the same.
   */
  lemma ThermalRiseExactly(s: Snapshot, from: int, to: int, lens: Lens)
    requires from <= to
    ensures Overall(s.(thermal := Some(to)), lens) <= Overall(s.(thermal := Some(from)), lens)
       <==> from >= 0 || Scored24(to)
  {
    var a, b := s.(thermal := Some(from)), s.(thermal := Some(to));
    if from >= 0 {
      OverallFalls(a, b, lens);
    } else if Scored24(to) {
      assert SignalsOf(a) == SignalsOf(b);
    } else {
      OverallIsRounded(a, lens);
      OverallIsRounded(b, lens);
      assert Weighted(SignalsOf(a), WeightsOf(lens)) + 100 <= Weighted(SignalsOf(b), WeightsOf(lens)) by {
        hide ScoreFromPressure, BatteryScore;
      }
      hide SignalsOf, Weighted, RoundToInt, Overall;
      RoundApart(Weighted(SignalsOf(a), WeightsOf(lens)), Weighted(SignalsOf(b), WeightsOf(lens)));
    }
  }

  /** Such a rise: from level minus one to level zero every lens scores the device higher. */
  lemma NegativeLevelCounterexample(s: Snapshot, lens: Lens)
    ensures Overall(s.(thermal := Some(-1)), lens) < Overall(s.(thermal := Some(0)), lens)
  {
    ThermalRiseExactly(s, -1, 0, lens);
  }


  // ---------------------------------------------------------------- the scores, exactly

  /** n is x rounded to the nearest whole number, half-way upwards, and kept within 0..100. */
  predicate NearestIn100(n: int, x: real)
  {
    if x < 0.0 then n == 0
    else if x > 100.0 then n == 100
    else 0 <= n <= 100 && n as real - 0.5 <= x < n as real + 0.5
  }

  lemma ClampedIsNearest(x: real)
    ensures NearestIn100(Clamp(RoundToInt(x)), x)
  {
  }

  /** A pressure scores a hundred up to where its warning starts, and falls from there with the given slope. */
  predicate ScoresPressure(score: int, value: Option<real>, start: real, slope: real)
  {
    if value.None? then score == 88
    else if value.value <= start then score == 100
    else NearestIn100(score, 100.0 - slope * (value.value - start))
  }

  /**
   Each signal is the score of its own reading: CPU, memory and storage by their slopes, the thermal level and
   the battery by their tables.
   */
  lemma SignalsExactly(s: Snapshot)
    ensures var signals := SignalsOf(s);
      && ScoresPressure(signals.performance, s.cpu, 62.0, 1.15)
      && ScoresPressure(signals.memory, s.memory, 55.0, 1.3)
      && ScoresPressure(signals.storage, s.storage, 72.0, 1.35)
      && signals.thermal == (
           if s.thermal == None then 88 else if s.thermal == Some(0) then 100 else if s.thermal == Some(1) then 92
           else if s.thermal == Some(2) then 72 else if s.thermal == Some(3) then 48 else 24)
      && signals.battery == (
           if s.battery.None? then 88 else if s.charging then 96
           else if s.battery.value < 15 then 28 else if s.battery.value < 30 then 55
           else if s.battery.value < 55 then 78 else 94)
  {
    PressureExactly(s.cpu, 62.0, 1.15);
    PressureExactly(s.memory, 55.0, 1.3);
    PressureExactly(s.storage, 72.0, 1.35);
    hide ScoreFromPressure, ScoresPressure;
  }

  lemma PressureExactly(value: Option<real>, start: real, slope: real)
    ensures ScoresPressure(ScoreFromPressure(value, start, slope), value, start, slope)
  {
    if value.Some? && value.value > start {
      assert value.value - start >= 0.0;
      ClampedIsNearest(100.0 - (value.value - start) * slope);
      assert (value.value - start) * slope == slope * (value.value - start);
      hide RoundToInt, NearestIn100;
    }
  }

  /** The score is the weighted mean of the five signals, rounded, with the weights of the lens in hundredths. */
  lemma OverallExactly(s: Snapshot)
    ensures var g := SignalsOf(s);
      && NearestIn100(Overall(s, Balanced),
           (26 * g.performance + 22 * g.memory + 22 * g.thermal + 16 * g.battery + 14 * g.storage) as real / 100.0)
      && NearestIn100(Overall(s, Performance),
           (45 * g.performance + 22 * g.memory + 14 * g.thermal + 8 * g.battery + 11 * g.storage) as real / 100.0)
      && NearestIn100(Overall(s, Quiet),
           (12 * g.performance + 16 * g.memory + 38 * g.thermal + 25 * g.battery + 9 * g.storage) as real / 100.0)
      && NearestIn100(Overall(s, Efficiency),
           (15 * g.performance + 16 * g.memory + 23 * g.thermal + 36 * g.battery + 10 * g.storage) as real / 100.0)
      && NearestIn100(Overall(s, Reliability),
           (16 * g.performance + 27 * g.memory + 29 * g.thermal + 10 * g.battery + 18 * g.storage) as real / 100.0)
  {
    forall lens: Lens
      ensures NearestIn100(Overall(s, lens), Weighted(SignalsOf(s), WeightsOf(lens)) as real / 100.0)
    {
      ClampedIsNearest(Weighted(SignalsOf(s), WeightsOf(lens)) as real / 100.0);
    }
    hide SignalsOf, NearestIn100, Overall;
  }
}
