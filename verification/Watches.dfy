/**
 The dashboard's watches: thresholds over successive snapshots, the events they raise, and the bounded
 history and event list. The stored preferences and the view are one state; each input is one update of it.
 */
module Watches {
  import opened Options
  import opened Health
  import opened Sorting

  const MAX_HISTORY_SAMPLES := 60
  const MAX_WATCH_EVENTS := 40

  datatype Key = Cpu | Memory | Storage | Battery | Thermal

  datatype Settings = Settings(
    cpuEnabled: bool, cpuThreshold: real,
    memoryEnabled: bool, memoryThreshold: real,
    storageEnabled: bool, storageThreshold: real,
    batteryEnabled: bool, batteryLowThreshold: int,
    thermalEnabled: bool, thermalLevelThreshold: int)

  datatype WatchEvent = WatchEvent(key: Key, at: int)

  datatype View = View(
    history: seq<Snapshot>, score: Option<int>, lens: Lens, settings: Settings,
    events: seq<WatchEvent>, saved: seq<WatchEvent>, active: set<Key>)

  datatype Input =
    | Sampled(snapshot: Snapshot, at: int)
    | SampleFailed
    | SettingsChanged(settings: Settings)
    | LensChanged(lens: Lens)
    | EventsCleared

  // ---------------------------------------------------------------- one sample

  /** The watch condition of a key. */
  predicate Holds(k: Key, s: Snapshot, w: Settings)
  {
    match k
    case Cpu => w.cpuEnabled && s.cpu.Some? && s.cpu.value >= w.cpuThreshold
    case Memory => w.memoryEnabled && s.memory.Some? && s.memory.value >= w.memoryThreshold
    case Storage => w.storageEnabled && s.storage.Some? && s.storage.value >= w.storageThreshold
    case Battery => w.batteryEnabled && s.battery.Some? && s.battery.value <= w.batteryLowThreshold && !s.charging
    case Thermal => w.thermalEnabled && s.thermal.Some? && s.thermal.value >= w.thermalLevelThreshold
  }

  /** The order in which a snapshot is evaluated. */
  const KEYS := [Cpu, Memory, Storage, Battery, Thermal]

  function HoldingKeys(s: Snapshot, w: Settings): set<Key>
  {
    set k | k in KEYS && Holds(k, s, w)
  }

  /** What one key raises, given the keys already active. */
  function RaiseOne(k: Key, active: set<Key>, s: Snapshot, w: Settings, at: int): seq<WatchEvent>
  {
    if Holds(k, s, w) && k !in active then [WatchEvent(k, at)] else []
  }

  function Raise(keys: seq<Key>, active: set<Key>, s: Snapshot, w: Settings, at: int): seq<WatchEvent>
  {
    if keys == [] then []
    else
      Raise(keys[..|keys| - 1], active, s, w, at) + RaiseOne(keys[|keys| - 1], active, s, w, at)
  }

  function Step(v: View, i: Input): View
  {
    match i
    case Sampled(snapshot, at) =>
      var raised := Raise(KEYS, v.active, snapshot, v.settings, at);
      var events := Take(raised + v.events, MAX_WATCH_EVENTS);
      v.(history := TakeLast(v.history + [snapshot], MAX_HISTORY_SAMPLES),
         score := Some(Overall(snapshot, v.lens)),
         events := events,
         saved := if raised != [] then events else v.saved,
         active := HoldingKeys(snapshot, v.settings))
    case SampleFailed => v
    case SettingsChanged(settings) => v.(settings := settings)
    case LensChanged(lens) =>
      v.(lens := lens, score := if v.history == [] then None else Some(Overall(v.history[|v.history| - 1], lens)))
    case EventsCleared => v.(events := [], saved := [])
  }

  /** The view as it opens, with what the preferences hold. */
  function Opened(settings: Settings, lens: Lens, stored: seq<WatchEvent>): View
  {
    View([], None, lens, settings, stored, stored, {})
  }

  function Run(v: View, inputs: seq<Input>): View
  {
    if inputs == [] then v else Step(Run(v, inputs[..|inputs| - 1]), inputs[|inputs| - 1])
  }

  // ---------------------------------------------------------------- the view model

  class DashboardViewModel {
    var snapshot: Option<Snapshot>
    var history: seq<Snapshot>
    var healthScore: Option<int>
    var monitoringLens: Lens
    var watchSettings: Settings
    var watchEvents: seq<WatchEvent>
    var savedEvents: seq<WatchEvent>
    var activeWatchKeys: set<Key>

    function State(): View
      reads this
    {
      View(history, healthScore, monitoringLens, watchSettings, watchEvents, savedEvents, activeWatchKeys)
    }

    /** The latest snapshot is the end of the history. */
    predicate Valid()
      reads this
    {
      snapshot == if history == [] then None else Some(history[|history| - 1])
    }

    constructor (settings: Settings, lens: Lens, stored: seq<WatchEvent>)
      ensures Valid() && State() == Opened(settings, lens, stored)
    {
      snapshot, history, healthScore, monitoringLens := None, [], None, lens;
      watchSettings, watchEvents, savedEvents, activeWatchKeys := settings, stored, stored, {};
    }

    method Evaluate(key: Key, condition: bool, at: int) returns (raised: seq<WatchEvent>)
      modifies this`activeWatchKeys
      ensures activeWatchKeys == if condition then old(activeWatchKeys) + {key} else old(activeWatchKeys) - {key}
      ensures raised == if condition && key !in old(activeWatchKeys) then [WatchEvent(key, at)] else []
    {
      raised := [];
      if !condition {
        activeWatchKeys := activeWatchKeys - {key};
        return;
      }
      if key !in activeWatchKeys {
        activeWatchKeys := activeWatchKeys + {key};
        raised := [WatchEvent(key, at)];
      }
    }

    method EvaluateWatches(s: Snapshot, w: Settings, at: int) returns (raised: seq<WatchEvent>)
      modifies this`activeWatchKeys
      ensures raised == Raise(KEYS, old(activeWatchKeys), s, w, at)
      ensures activeWatchKeys == HoldingKeys(s, w)
    {
      hide Holds, Raise, HoldingKeys;
      ghost var before := activeWatchKeys;
      var cpu := Evaluate(Cpu, Holds(Cpu, s, w), at);
      var memory := Evaluate(Memory, Holds(Memory, s, w), at);
      var storage := Evaluate(Storage, Holds(Storage, s, w), at);
      var battery := Evaluate(Battery, Holds(Battery, s, w), at);
      var thermal := Evaluate(Thermal, Holds(Thermal, s, w), at);
      raised := cpu + memory + storage + battery + thermal;
      assert raised == RaiseOne(Cpu, before, s, w, at) + RaiseOne(Memory, before, s, w, at)
        + RaiseOne(Storage, before, s, w, at) + RaiseOne(Battery, before, s, w, at)
        + RaiseOne(Thermal, before, s, w, at);
      hide RaiseOne;
      RaiseInOrder(before, s, w, at);
      forall k: Key ensures k in activeWatchKeys <==> k in HoldingKeys(s, w) {
        HoldingKey(k, s, w);
        assert k == Cpu || k == Memory || k == Storage || k == Battery || k == Thermal;
      }
    }

    method CollectTelemetry(collected: Option<Snapshot>, at: int)
      requires Valid()
      modifies this
      ensures Valid()
      ensures State() == Step(old(State()), if collected.Some? then Sampled(collected.value, at) else SampleFailed)
    {
      hide Raise, HoldingKeys, Overall;
      if collected.Some? {
        history := TakeLast(history + [collected.value], MAX_HISTORY_SAMPLES);
        var raised := EvaluateWatches(collected.value, watchSettings, at);
        watchEvents := Take(raised + watchEvents, MAX_WATCH_EVENTS);
        if |raised| > 0 {
          savedEvents := watchEvents;
        }
        snapshot := collected;
        healthScore := Some(Overall(collected.value, monitoringLens));
      }
    }

    method SetMonitoringLens(lens: Lens)
      requires Valid()
      modifies this
      ensures Valid() && State() == Step(old(State()), LensChanged(lens))
    {
      monitoringLens := lens;
      healthScore := if snapshot.Some? then Some(Overall(snapshot.value, lens)) else None;
    }

    method UpdateWatchSettings(settings: Settings)
      requires Valid()
      modifies this
      ensures Valid() && State() == Step(old(State()), SettingsChanged(settings))
    {
      watchSettings := settings;
    }

    method ClearWatchEvents()
      requires Valid()
      modifies this
      ensures Valid() && State() == Step(old(State()), EventsCleared)
    {
      watchEvents, savedEvents := [], [];
    }
  }

  lemma EveryKeyListed(k: Key)
    ensures k in KEYS
  {
    match k
    case Cpu => assert KEYS[0] == k;
    case Memory => assert KEYS[1] == k;
    case Storage => assert KEYS[2] == k;
    case Battery => assert KEYS[3] == k;
    case Thermal => assert KEYS[4] == k;
  }

  lemma RaiseInOrder(active: set<Key>, s: Snapshot, w: Settings, at: int)
    ensures Raise(KEYS, active, s, w, at)
      == RaiseOne(Cpu, active, s, w, at) + RaiseOne(Memory, active, s, w, at) + RaiseOne(Storage, active, s, w, at)
         + RaiseOne(Battery, active, s, w, at) + RaiseOne(Thermal, active, s, w, at)
  {
    RaiseMore([], Cpu, active, s, w, at);
    RaiseMore([Cpu], Memory, active, s, w, at);
    RaiseMore([Cpu, Memory], Storage, active, s, w, at);
    RaiseMore([Cpu, Memory, Storage], Battery, active, s, w, at);
    RaiseMore([Cpu, Memory, Storage, Battery], Thermal, active, s, w, at);
    RaiseNone(active, s, w, at);
    hide Raise, RaiseOne;
    assert [] + [Cpu] == [Cpu];
    assert [Cpu] + [Memory] == [Cpu, Memory];
    assert [Cpu, Memory] + [Storage] == [Cpu, Memory, Storage];
    assert [Cpu, Memory, Storage] + [Battery] == [Cpu, Memory, Storage, Battery];
    assert [Cpu, Memory, Storage, Battery] + [Thermal] == KEYS;
  }

  lemma RaiseNone(active: set<Key>, s: Snapshot, w: Settings, at: int)
    ensures Raise([], active, s, w, at) == []
  {
  }

  lemma RaiseMore(keys: seq<Key>, k: Key, active: set<Key>, s: Snapshot, w: Settings, at: int)
    ensures Raise(keys + [k], active, s, w, at) == Raise(keys, active, s, w, at) + RaiseOne(k, active, s, w, at)
  {
    hide RaiseOne;
    assert (keys + [k])[..|keys|] == keys;
  }

  // ---------------------------------------------------------------- what was sampled in a run

  /** A snapshot with the settings it was judged by. */
  datatype Sample = Sample(snapshot: Snapshot, settings: Settings, at: int)

  function SettingsAfter(settings: Settings, inputs: seq<Input>): Settings
  {
    if inputs == [] then settings
    else
      var last := inputs[|inputs| - 1];
      if last.SettingsChanged? then last.settings else SettingsAfter(settings, inputs[..|inputs| - 1])
  }

  function Samples(settings: Settings, inputs: seq<Input>): seq<Sample>
  {
    if inputs == [] then []
    else
      var front, last := inputs[..|inputs| - 1], inputs[|inputs| - 1];
      Samples(settings, front)
      + if last.Sampled? then [Sample(last.snapshot, SettingsAfter(settings, front), last.at)] else []
  }

  predicate HoldsAt(k: Key, samples: seq<Sample>, j: int)
    requires 0 <= j < |samples|
  {
    Holds(k, samples[j].snapshot, samples[j].settings)
  }

  /** The key holds at this sample and did not at the one before, if there is one. */
  predicate Rises(k: Key, samples: seq<Sample>, j: int)
    requires 0 <= j < |samples|
  {
    HoldsAt(k, samples, j) && (j == 0 || !HoldsAt(k, samples, j - 1))
  }

  lemma {:induction false} SettingsInForce(v: View, inputs: seq<Input>)
    ensures Run(v, inputs).settings == SettingsAfter(v.settings, inputs)
  {
    hide Raise, HoldingKeys, Take, TakeLast, Overall;
    if inputs != [] {
      SettingsInForce(v, inputs[..|inputs| - 1]);
    }
  }

  function ActiveAfter(samples: seq<Sample>): set<Key>
  {
    if samples == [] then {}
    else HoldingKeys(samples[|samples| - 1].snapshot, samples[|samples| - 1].settings)
  }

  /** The active keys are those whose watch held at the last sample, under the settings of that moment. */
  lemma {:induction false} ActiveAreHolding(settings: Settings, lens: Lens, stored: seq<WatchEvent>, inputs: seq<Input>)
    ensures Run(Opened(settings, lens, stored), inputs).active == ActiveAfter(Samples(settings, inputs))
  {
    hide Raise, HoldingKeys, Take, TakeLast, Overall;
    if inputs != [] {
      var front := inputs[..|inputs| - 1];
      ActiveAreHolding(settings, lens, stored, front);
      SettingsInForce(Opened(settings, lens, stored), front);
    }
  }

  // ---------------------------------------------------------------- events are rising edges

  /** The events a step raises. */
  function Raised(v: View, i: Input): seq<WatchEvent>
  {
    if i.Sampled? then Raise(KEYS, v.active, i.snapshot, v.settings, i.at) else []
  }

  /** Every event raised in a run, in order. */
  function AllRaised(v: View, inputs: seq<Input>): seq<WatchEvent>
  {
    if inputs == [] then []
    else
      var front := inputs[..|inputs| - 1];
      AllRaised(v, front) + Raised(Run(v, front), inputs[|inputs| - 1])
  }

  function EventsOf(k: Key, events: seq<WatchEvent>): seq<WatchEvent>
  {
    if events == [] then []
    else (if events[0].key == k then [events[0]] else []) + EventsOf(k, events[1..])
  }

  /** One event for each rising edge of a key, oldest first. */
  function RisingEdges(k: Key, samples: seq<Sample>): seq<WatchEvent>
  {
    if samples == [] then []
    else
      var j := |samples| - 1;
      RisingEdges(k, samples[..j]) + if Rises(k, samples, j) then [WatchEvent(k, samples[j].at)] else []
  }

  lemma {:induction false} EventsOfSum(k: Key, a: seq<WatchEvent>, b: seq<WatchEvent>)
    ensures EventsOf(k, a + b) == EventsOf(k, a) + EventsOf(k, b)
  {
    if a == [] {
      assert a + b == b;
    } else {
      assert (a + b)[1..] == a[1..] + b;
      EventsOfSum(k, a[1..], b);
    }
  }

  lemma {:induction false} RaisedForKey(k: Key, keys: seq<Key>, active: set<Key>, s: Snapshot, w: Settings, at: int)
    requires Distinct(keys)
    ensures EventsOf(k, Raise(keys, active, s, w, at))
         == if k in keys then RaiseOne(k, active, s, w, at) else []
  {
    if keys != [] {
      var front, last := keys[..|keys| - 1], keys[|keys| - 1];
      RaisedForKey(k, front, active, s, w, at);
      OneForKey(k, last, active, s, w, at);
      hide Holds, EventsOf, RaiseOne;
      EventsOfSum(k, Raise(front, active, s, w, at), RaiseOne(last, active, s, w, at));
      assert keys == front + [last];
    }
  }

  lemma OneForKey(k: Key, key: Key, active: set<Key>, s: Snapshot, w: Settings, at: int)
    ensures EventsOf(k, RaiseOne(key, active, s, w, at)) == if key == k then RaiseOne(key, active, s, w, at) else []
  {
    hide Holds;
  }

  lemma HoldingKey(k: Key, s: Snapshot, w: Settings)
    ensures k in HoldingKeys(s, w) <==> Holds(k, s, w)
  {
    EveryKeyListed(k);
  }

  lemma RisesStep(k: Key, samples: seq<Sample>, next: Sample)
    ensures RisingEdges(k, samples + [next]) == RisingEdges(k, samples)
      + if Holds(k, next.snapshot, next.settings) && k !in ActiveAfter(samples) then [WatchEvent(k, next.at)] else []
  {
    hide Holds, HoldingKeys;
    var more := samples + [next];
    assert more[..|more| - 1] == samples;
    if samples != [] {
      var last := samples[|samples| - 1];
      HoldingKey(k, last.snapshot, last.settings);
      assert more[|more| - 2] == last;
    }
  }

  /** For every key, the events of a whole run are exactly its rising edges, whatever settings change between. */
  lemma {:induction false} EventsAreRisingEdges(settings: Settings, lens: Lens, stored: seq<WatchEvent>,
      inputs: seq<Input>, k: Key)
    ensures EventsOf(k, AllRaised(Opened(settings, lens, stored), inputs)) == RisingEdges(k, Samples(settings, inputs))
  {
    hide Holds, HoldingKeys, Raise, Run, RisingEdges, EventsOf;
    var v := Opened(settings, lens, stored);
    if inputs == [] {
      NoEdges(k);
    } else {
      var front, last := inputs[..|inputs| - 1], inputs[|inputs| - 1];
      EventsAreRisingEdges(settings, lens, stored, front, k);
      EventsOfSum(k, AllRaised(v, front), Raised(Run(v, front), last));
      if last.Sampled? {
        var next := Sample(last.snapshot, SettingsAfter(settings, front), last.at);
        SettingsInForce(v, front);
        ActiveAreHolding(settings, lens, stored, front);
        KeysDistinct();
        EveryKeyListed(k);
        RaisedForKey(k, KEYS, Run(v, front).active, last.snapshot, next.settings, last.at);
        RisesStep(k, Samples(settings, front), next);
      } else {
        NoEdges(k);
        assert Samples(settings, inputs) == Samples(settings, front);
      }
    }
  }

  lemma KeysDistinct()
    ensures Distinct(KEYS)
  {
  }

  lemma NoEdges(k: Key)
    ensures RisingEdges(k, []) == [] && EventsOf(k, []) == []
  {
  }

  // ---------------------------------------------------------------- bounded lists

  function Snapshots(inputs: seq<Input>): seq<Snapshot>
  {
    if inputs == [] then []
    else
      Snapshots(inputs[..|inputs| - 1])
      + if inputs[|inputs| - 1].Sampled? then [inputs[|inputs| - 1].snapshot] else []
  }

  lemma TakeLastAppend<T>(s: seq<T>, x: T, n: nat)
    requires n > 0
    ensures TakeLast(TakeLast(s, n) + [x], n) == TakeLast(s + [x], n)
  {
  }

  /** The history is exactly the last sixty snapshots. */
  lemma {:induction false} HistoryIsLastSixty(settings: Settings, lens: Lens, stored: seq<WatchEvent>,
      inputs: seq<Input>)
    ensures Run(Opened(settings, lens, stored), inputs).history == TakeLast(Snapshots(inputs), 60)
  {
    hide Raise, HoldingKeys, Take, TakeLast, Overall;
    if inputs == [] {
      TakeLastNothing<Snapshot>(MAX_HISTORY_SAMPLES);
    } else {
      var front, last := inputs[..|inputs| - 1], inputs[|inputs| - 1];
      HistoryIsLastSixty(settings, lens, stored, front);
      if last.Sampled? {
        TakeLastAppend(Snapshots(front), last.snapshot, MAX_HISTORY_SAMPLES);
      } else {
        assert Snapshots(inputs) == Snapshots(front);
      }
    }
  }

  lemma TakeLastNothing<T>(n: nat)
    ensures TakeLast<T>([], n) == []
  {
  }

  /** The event list were it never cut: newest batch first, emptied by a clear. */
  function Uncut(v: View, inputs: seq<Input>): seq<WatchEvent>
  {
    if inputs == [] then v.events
    else
      var front, last := inputs[..|inputs| - 1], inputs[|inputs| - 1];
      if last.EventsCleared? then [] else Raised(Run(v, front), last) + Uncut(v, front)
  }

  lemma TakePrepend<T>(a: seq<T>, s: seq<T>, t: seq<T>, n: nat)
    requires Take(s, n) == Take(t, n)
    ensures Take(a + s, n) == Take(a + t, n)
  {
    assert forall i :: 0 <= i < n && i < |s| ==> Take(s, n)[i] == s[i];
    assert forall i :: 0 <= i < n && i < |t| ==> Take(t, n)[i] == t[i];
    assert |Take(a + s, n)| == |Take(a + t, n)|;
  }

  lemma TakeTwice<T>(s: seq<T>, n: nat)
    ensures Take(Take(s, n), n) == Take(s, n) && |Take(s, n)| <= n
  {
  }

  ghost predicate EverSampled(inputs: seq<Input>)
  {
    exists i :: 0 <= i < |inputs| && inputs[i].Sampled?
  }

  /**
   The list shown and the list saved both begin with the newest forty of the uncut list, and what is shown
   is no more than those once a sample has been taken.
   */
  lemma {:induction false} ListIsNewestForty(v: View, inputs: seq<Input>)
    requires v.saved == v.events
    ensures Take(Run(v, inputs).events, 40) == Take(Uncut(v, inputs), 40)
    ensures Take(Run(v, inputs).saved, 40) == Take(Uncut(v, inputs), 40)
    ensures EverSampled(inputs) ==> |Run(v, inputs).events| <= 40
  {
    hide Raise, HoldingKeys, TakeLast, Take, Overall;
    if inputs != [] {
      var front, last := inputs[..|inputs| - 1], inputs[|inputs| - 1];
      ListIsNewestForty(v, front);
      var u := Run(v, front);
      var raised := Raised(u, last);
      assert EverSampled(inputs) <==> EverSampled(front) || last.Sampled?;
      if last.Sampled? {
        TakePrepend(raised, u.events, Uncut(v, front), MAX_WATCH_EVENTS);
        TakeTwice(raised + u.events, MAX_WATCH_EVENTS);
        if raised == [] {
          assert raised + Uncut(v, front) == Uncut(v, front);
        }
      } else if !last.EventsCleared? {
        assert raised + Uncut(v, front) == Uncut(v, front);
      }
    }
  }

  // ---------------------------------------------------------------- the score shown

  ghost predicate ScoreCurrent(v: View)
  {
    v.score == if v.history == [] then None else Some(Overall(v.history[|v.history| - 1], v.lens))
  }

  lemma TakeLastEnds<T>(s: seq<T>, x: T, n: nat)
    requires n > 0
    ensures TakeLast(s + [x], n) != [] && TakeLast(s + [x], n)[|TakeLast(s + [x], n)| - 1] == x
  {
  }

  /** The score shown is always that of the latest snapshot through the lens now chosen, and lies in 0..100. */
  lemma {:induction false} ScoreStaysCurrent(v: View, inputs: seq<Input>)
    requires ScoreCurrent(v)
    ensures ScoreCurrent(Run(v, inputs))
    ensures Run(v, inputs).score.Some? ==> 0 <= Run(v, inputs).score.value <= 100
  {
    hide Raise, HoldingKeys, TakeLast, Take, Overall;
    if inputs != [] {
      var front, last := inputs[..|inputs| - 1], inputs[|inputs| - 1];
      ScoreStaysCurrent(v, front);
      if last.Sampled? {
        TakeLastEnds(Run(v, front).history, last.snapshot, MAX_HISTORY_SAMPLES);
      }
    }
    var now := Run(v, inputs);
    if now.history != [] {
      OverallBetweenSignals(now.history[|now.history| - 1], now.lens);
    }
  }


  // ---------------------------------------------------------------- the watch conditions

  /**
   A watch that is switched on holds for a known reading at its threshold or beyond: above for the pressures and
   the thermal level, below for the battery, and there only while it is not charging.
   */
  lemma HoldsExactly(s: Snapshot, w: Settings)
    ensures Holds(Cpu, s, w) <==> w.cpuEnabled && exists x :: s.cpu == Some(x) && w.cpuThreshold <= x
    ensures Holds(Memory, s, w) <==> w.memoryEnabled && exists x :: s.memory == Some(x) && w.memoryThreshold <= x
    ensures Holds(Storage, s, w) <==> w.storageEnabled && exists x :: s.storage == Some(x) && w.storageThreshold <= x
    ensures Holds(Battery, s, w) <==>
              w.batteryEnabled && !s.charging && exists n :: s.battery == Some(n) && n <= w.batteryLowThreshold
    ensures Holds(Thermal, s, w) <==>
              w.thermalEnabled && exists n :: s.thermal == Some(n) && w.thermalLevelThreshold <= n
  {
  }

  function LensAfter(lens: Lens, inputs: seq<Input>): Lens
  {
    if inputs == [] then lens
    else
      var last := inputs[|inputs| - 1];
      if last.LensChanged? then last.lens else LensAfter(lens, inputs[..|inputs| - 1])
  }

  /** The lens is the one chosen last. */
  lemma {:induction false} LensInForce(v: View, inputs: seq<Input>)
    ensures Run(v, inputs).lens == LensAfter(v.lens, inputs)
  {
    hide Raise, HoldingKeys, Take, TakeLast, Overall;
    if inputs != [] {
      LensInForce(v, inputs[..|inputs| - 1]);
    }
  }
}
