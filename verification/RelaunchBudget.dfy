/**
 How often a crashing plugin is brought back: the restart counter lives in the registry and in its file, is
 charged by every exit report of a registered launch, and is cleared only by an explicit enable. The account
 runs on when the program ends and is started again.
 */
module RelaunchBudget {
  import opened Options
  import opened Plugins
  import opened BrokerState
  import BrokerEffects

  /** Relaunches scheduled for one plugin since it was last explicitly enabled, and the seconds slept for them. */
  datatype Budget = Budget(scheduled: nat, backoff: nat)

  const MAX_BACKOFF := 30

  /** What one event adds to the account of plugin p. */
  function Charge(b: Broker, e: Event, p: Id, g: Budget): Budget
  {
    if !Possible(b, e) then g
    else
      match e
      case SetEnabledCalled(id, enabled, _, _, _) =>
        if id == p && enabled && ManifestFor(b, id).Some? && Approved(b, id) then Budget(0, 0) else g
      case ExitSeen(t, logSaves, countSaves) =>
        var (after, scheduled) := HandleExit(b, t, logSaves, countSaves);
        if scheduled && b.launches[t].pluginId == p then
          Budget(g.scheduled + 1, g.backoff + Backoff(EntryOf(after, p).restartCount))
        else g
      case _ => g
  }

  function Account(b: Broker, es: seq<Event>, p: Id): Budget
  {
    if es == [] then Budget(0, 0)
    else
      Charge(Run(b, es[..|es| - 1]), es[|es| - 1], p, Account(b, es[..|es| - 1], p))
  }

  /** The record in the registry's file, which the next run of the program starts from. */
  function SavedEntry(b: Broker, id: Id): Entry
  {
    if id in b.saved then b.saved[id] else NEW_ENTRY
  }

  function Counted(e: Entry): nat
  {
    if e.restartCount < MAX_RESTARTS then e.restartCount else MAX_RESTARTS
  }

  /** The counter of an enabled plugin bounds what was spent. */
  predicate Bounds(e: Entry, g: Budget)
  {
    e.enabled ==> g.scheduled <= Counted(e) && g.backoff <= Counted(e) * (Counted(e) + 1)
  }

  /** Both records of a plugin bound what was spent; in any case the ceilings hold. */
  predicate Covered(b: Broker, p: Id, g: Budget)
  {
    && g.scheduled <= MAX_RESTARTS && g.backoff <= MAX_BACKOFF
    && Bounds(EntryOf(b, p), g) && Bounds(SavedEntry(b, p), g)
  }

  /** An enabled record is no lower than an enabled one of before. */
  predicate NoLower(b: Broker, p: Id, e: Entry)
  {
    e.enabled ==>
      || (EntryOf(b, p).enabled && EntryOf(b, p).restartCount <= e.restartCount)
      || (SavedEntry(b, p).enabled && SavedEntry(b, p).restartCount <= e.restartCount)
  }

  predicate Carried(b: Broker, b': Broker, p: Id)
  {
    NoLower(b, p, EntryOf(b', p)) && NoLower(b, p, SavedEntry(b', p))
  }

  lemma MoreBounds(e: Entry, e': Entry, g: Budget)
    requires e.enabled && Bounds(e, g) && e.restartCount <= e'.restartCount
    ensures Bounds(e', g)
  {
    var n, m := Counted(e), Counted(e');
    assert n * (n + 1) <= m * (m + 1);
  }

  lemma NoLowerBounds(b: Broker, p: Id, e: Entry, g: Budget)
    requires Covered(b, p, g) && NoLower(b, p, e)
    ensures Bounds(e, g)
  {
    if e.enabled {
      if EntryOf(b, p).enabled && EntryOf(b, p).restartCount <= e.restartCount {
        MoreBounds(EntryOf(b, p), e, g);
      } else {
        MoreBounds(SavedEntry(b, p), e, g);
      }
    }
  }

  lemma CarriedCovers(b: Broker, b': Broker, p: Id, g: Budget)
    requires Covered(b, p, g) && Carried(b, b', p)
    ensures Covered(b', p, g)
  {
    NoLowerBounds(b, p, EntryOf(b', p), g);
    NoLowerBounds(b, p, SavedEntry(b', p), g);
  }

  predicate OnPipes(e: Event)
  {
    e.SampleSent? || e.HeartbeatLate? || e.LineFromPlugin? || e.PluginReadsLine? || e.PluginPublishesEvent?
    || e.PluginPrintsLine? || e.PluginTakesLine? || e.InputCloses? || e.ProcessEnds?
  }

  lemma PipeStep(b: Broker, e: Event, p: Id)
    requires OnPipes(e)
    ensures Carried(b, Step(b, e), p)
  {
    if e.LineFromPlugin? {
      hide Carried, ReadStdout;
      ReadStep(b, e.from, p);
    } else {
      PipesTouchNoRecord(b, e);
      hide Step;
    }
  }

  lemma PipesTouchNoRecord(b: Broker, e: Event)
    requires OnPipes(e) && !e.LineFromPlugin?
    ensures Step(b, e).registry == b.registry && Step(b, e).saved == b.saved
  {
    if e.SampleSent? || e.HeartbeatLate? {
      MonitorTouchesNoRecord(b, if e.SampleSent? then e.to else e.of);
      hide Possible, ReadStdout;
      hide SetGrants, SetEnabled, Restart, LaunchPlugin, StopPlugin, Relaunch, RestartProgram;
      hide InstallArchive, InstallBundled, RemovePlugin, Logged, HandleExit;
      hide SendSample, MarkUnresponsive, PluginReads, PluginPublishes, PluginPrints, PluginTakes;
      hide ClosesItsInput, ProcessDies;
    } else {
      WorkTouchesNoRecord(b, e);
      hide Step;
    }
  }

  lemma WorkTouchesNoRecord(b: Broker, e: Event)
    requires OnPipes(e) && !e.LineFromPlugin? && !e.SampleSent? && !e.HeartbeatLate?
    ensures Step(b, e).registry == b.registry && Step(b, e).saved == b.saved
  {
    hide Possible, ReadStdout;
    hide SetGrants, SetEnabled, Restart, LaunchPlugin, StopPlugin, Relaunch, RestartProgram;
    hide InstallArchive, InstallBundled, RemovePlugin, Logged, HandleExit;
    hide SendSample, MarkUnresponsive, PluginReads, PluginPublishes, PluginPrints, PluginTakes;
    hide ClosesItsInput, ProcessDies;
    match e {
      case PluginReadsLine(t, now) => ProcessTouchesNoRecord(b, t, now, Unknown(t), "");
      case PluginPublishesEvent(t, text) => ProcessTouchesNoRecord(b, t, 0.0, Unknown(t), text);
      case PluginPrintsLine(t, m) => ProcessTouchesNoRecord(b, t, 0.0, m, "");
      case PluginTakesLine(t) => EndTouchesNoRecord(b, t);
      case InputCloses(t) => EndTouchesNoRecord(b, t);
      case ProcessEnds(t) => EndTouchesNoRecord(b, t);
    }
  }

  lemma MonitorTouchesNoRecord(b: Broker, t: Token)
    ensures SendSample(b, t).registry == b.registry && SendSample(b, t).saved == b.saved
    ensures MarkUnresponsive(b, t).registry == b.registry && MarkUnresponsive(b, t).saved == b.saved
  {
    hide EntryOf, Sent;
  }

  lemma ProcessTouchesNoRecord(b: Broker, t: Token, now: real, m: PluginMessage, text: string)
    ensures PluginReads(b, t, now).registry == b.registry && PluginReads(b, t, now).saved == b.saved
    ensures PluginPrints(b, t, m).registry == b.registry && PluginPrints(b, t, m).saved == b.saved
    ensures PluginPublishes(b, t, text).registry == b.registry && PluginPublishes(b, t, text).saved == b.saved
  {
    hide SdkRead, SdkPublish, StatusLine, Authentic;
  }

  lemma EndTouchesNoRecord(b: Broker, t: Token)
    ensures PluginTakes(b, t).registry == b.registry && PluginTakes(b, t).saved == b.saved
    ensures ClosesItsInput(b, t).registry == b.registry && ClosesItsInput(b, t).saved == b.saved
    ensures ProcessDies(b, t).registry == b.registry && ProcessDies(b, t).saved == b.saved
  {
  }

  lemma ReadStep(b: Broker, t: Token, p: Id)
    ensures Carried(b, ReadStdout(b, t), p)
  {
    hide TakeLine, Clipped;
  }

  predicate OnPackages(e: Event)
  {
    e.InstallCalled? || e.BundledFound? || e.RemoveCalled? || e.SystemLogged? || e.StoppingSet? || e.ProgramRestarts?
  }

  lemma InstallStep(b: Broker, name: string, pkg: Package, suffix: string, fault: Fault, saves: bool, p: Id)
    ensures Carried(b, InstallArchive(b, name, pkg, suffix, fault, saves).0, p)
  {
    hide ReadManifest, PutInPlace, EntryOf;
    if InstallArchive(b, name, pkg, suffix, fault, saves).0 == b {
      NothingCarries(b, p);
    } else {
      PlacingStep(b, ReadManifest(name, pkg).value.id, pkg, suffix, fault, saves, p);
    }
  }

  lemma NothingCarries(b: Broker, p: Id)
    ensures Carried(b, b, p)
  {
  }

  lemma PlacingStep(b: Broker, id: Id, pkg: Package, suffix: string, fault: Fault, saves: bool, p: Id)
    ensures Carried(b, PutInPlace(b, id, pkg, suffix, fault, saves).0, p)
  {
    hide Swap;
  }

  lemma PackageStep(b: Broker, e: Event, p: Id)
    requires OnPackages(e)
    ensures Carried(b, Step(b, e), p)
  {
    hide Possible, ReadManifest, Swap;
    hide SetGrants, SetEnabled, Restart, LaunchPlugin, StopPlugin, Relaunch;
    hide InstallArchive, InstallBundled, RemovePlugin, Logged, HandleExit;
    hide SendSample, MarkUnresponsive, ReadStdout, PluginReads, PluginPublishes, PluginPrints, PluginTakes;
    match e {
      case InstallCalled(name, pkg, suffix, fault, saves) => InstallStep(b, name, pkg, suffix, fault, saves, p);
      case BundledFound(name, pkg, copied, saves) => BundledStep(b, name, pkg, copied, saves, p);
      case RemoveCalled(id, left, saves) => RemoveStep(b, id, left, saves, p);
      case SystemLogged(id, line, saves) => LogStep(b, id, line, saves, p);
      case _ =>
    }
  }

  lemma BundledStep(b: Broker, name: Id, pkg: Package, copied: bool, saves: bool, p: Id)
    ensures Carried(b, InstallBundled(b, name, pkg, copied, saves), p)
  {
  }

  lemma RemoveStep(b: Broker, id: Id, left: Option<Package>, saves: bool, p: Id)
    ensures Carried(b, RemovePlugin(b, id, left, saves).0, p)
  {
    hide ManifestFor;
  }

  lemma LogStep(b: Broker, id: Id, line: LogLine, saves: bool, p: Id)
    ensures Carried(b, Logged(b, id, line, saves), p)
  {
  }

  lemma BrokerStep(b: Broker, e: Event, p: Id)
    requires !(e.SetEnabledCalled? && e.enabled) && !e.ExitSeen? && !OnPipes(e) && !OnPackages(e)
    ensures Carried(b, Step(b, e), p)
  {
    hide ManifestFor, Approved, LaunchPlugin, StopPlugin, SetEnabled, Possible;
    match e {
      case SetGrantsCalled(id, _, _) => StopRecordsNothing(b, id);
      case SetEnabledCalled(id, _, saves, t, spawn) => DisableStep(b, id, saves, t, spawn, p);
      case RestartCalled(id, t, spawn) =>
        StopRecordsNothing(b, id);
        LaunchRecordsNothing(StopPlugin(b, id), id, t, spawn);
      case LaunchCalled(id, t, spawn) => LaunchRecordsNothing(b, id, t, spawn);
      case StopCalled(id) => StopRecordsNothing(b, id);
      case RelaunchDue(t, spawn) =>
        if b.pending.Some? {
          LaunchRecordsNothing(b.(pending := None), b.pending.value, t, spawn);
        }
    }
  }

  lemma DisableStep(b: Broker, id: Id, saves: bool, t: Token, spawn: Spawn, p: Id)
    ensures Carried(b, SetEnabled(b, id, false, saves, t, spawn).0, p)
  {
    hide ManifestFor, Approved, LaunchPlugin, StopPlugin;
    StopRecordsNothing(Save(Marked(b, id, false), true), id);
  }

  lemma QuietStep(b: Broker, e: Event, p: Id)
    requires !(e.SetEnabledCalled? && e.enabled) && !e.ExitSeen?
    ensures Carried(b, Step(b, e), p)
  {
    hide Step, Carried;
    if OnPipes(e) {
      PipeStep(b, e, p);
    } else if OnPackages(e) {
      PackageStep(b, e, p);
    } else {
      BrokerStep(b, e, p);
    }
  }

  lemma EnableStep(b: Broker, id: Id, saves: bool, t: Token, spawn: Spawn, p: Id, g: Budget)
    requires Covered(b, p, g)
    ensures var e := SetEnabledCalled(id, true, saves, t, spawn);
      Covered(Step(b, e), p, Charge(b, e, p, g))
  {
    hide ManifestFor, Approved, LaunchPlugin, StopPlugin;
    LaunchRecordsNothing(Save(Marked(b, id, true), true), id, t, spawn);
  }

  /** An exit report only ever raises a counter. */
  lemma ExitCarries(b: Broker, t: Token, logSaves: bool, countSaves: bool, p: Id)
    ensures Carried(b, HandleExit(b, t, logSaves, countSaves).0, p)
  {
  }

  /** A relaunch is scheduled only after the counter has gone up by one in the registry and in its file. */
  lemma ScheduledIsCounted(b: Broker, t: Token, logSaves: bool, countSaves: bool)
    requires HandleExit(b, t, logSaves, countSaves).1
    ensures var after := HandleExit(b, t, logSaves, countSaves).0;
      var p := b.launches[t].pluginId;
      && EntryOf(b, p).enabled && EntryOf(b, p).restartCount < MAX_RESTARTS
      && EntryOf(after, p).restartCount == EntryOf(b, p).restartCount + 1
      && SavedEntry(after, p) == EntryOf(after, p)
  {
  }

  lemma ExitStep(b: Broker, t: Token, logSaves: bool, countSaves: bool, p: Id, g: Budget)
    requires Covered(b, p, g)
    ensures var e := ExitSeen(t, logSaves, countSaves);
      Covered(Step(b, e), p, Charge(b, e, p, g))
  {
    ExitCarries(b, t, logSaves, countSaves, p);
    CarriedCovers(b, HandleExit(b, t, logSaves, countSaves).0, p, g);
    if HandleExit(b, t, logSaves, countSaves).1 {
      ScheduledIsCounted(b, t, logSaves, countSaves);
    }
    hide HandleExit, Carried, Backoff;
    var n := EntryOf(b, p).restartCount;
    if n < MAX_RESTARTS {
      OneMoreDelay(n);
    }
  }

  lemma OneMoreDelay(n: nat)
    requires n < MAX_RESTARTS
    ensures n * (n + 1) + Backoff(n + 1) <= (n + 1) * (n + 2) <= MAX_BACKOFF
  {
    assert n == 0 || n == 1 || n == 2 || n == 3 || n == 4;
  }

  /**
   From any broker, over any run, restarts of the program included: between two explicit enables of a plugin
   at most five automatic relaunches are scheduled, and their delays add up to at most thirty seconds.
   */
  lemma {:induction false} RelaunchesAreBounded(b: Broker, es: seq<Event>, p: Id)
    ensures Covered(Run(b, es), p, Account(b, es, p))
  {
    hide Step, Charge;
    if es != [] {
      var front, e := es[..|es| - 1], es[|es| - 1];
      var before, g := Run(b, front), Account(b, front, p);
      RelaunchesAreBounded(b, front, p);
      hide Covered;
      if e.SetEnabledCalled? && e.enabled {
        EnableStep(before, e.id, e.saves, e.token, e.spawn, p, g);
      } else if e.ExitSeen? {
        ExitStep(before, e.dead, e.logSaves, e.countSaves, p, g);
      } else {
        QuietStep(before, e, p);
        QuietCharge(before, e, p, g);
        CarriedCovers(before, Step(before, e), p, g);
      }
    }
  }

  lemma QuietCharge(b: Broker, e: Event, p: Id, g: Budget)
    requires !(e.SetEnabledCalled? && e.enabled) && !e.ExitSeen?
    ensures Charge(b, e, p, g) == g
  {
  }

  lemma AtMostFiveRelaunches(b: Broker, es: seq<Event>, p: Id)
    ensures Account(b, es, p).scheduled <= 5 && Account(b, es, p).backoff <= 30
  {
    RelaunchesAreBounded(b, es, p);
  }

  /** The account of p goes up by one, and by the wait, exactly when a relaunch of p is scheduled. */
  lemma AccountGrows(b: Broker, es: seq<Event>, t: Token, logSaves: bool, countSaves: bool, p: Id)
    requires var now := Run(b, es); t in now.launches && !now.launches[t].alive && now.pending.None?
    ensures var now, before := Run(b, es), Account(b, es, p);
      Account(b, es + [ExitSeen(t, logSaves, countSaves)], p) ==
        if now.launches[t].pluginId == p && BrokerEffects.RelaunchFollows(now, t, logSaves, countSaves) then
          var n := EntryOf(now, p).restartCount + 1;
          Budget(before.scheduled + 1, before.backoff + if 2 * n < 10 then 2 * n else 10)
        else before
  {
    var now, e := Run(b, es), ExitSeen(t, logSaves, countSaves);
    assert (es + [e])[..|es|] == es;
    BrokerEffects.ExitExactly(now, t, logSaves, countSaves);
    hide Run, HandleExit;
  }

  /** And it is cleared exactly by an explicit enable that is not refused. */
  lemma AccountClears(b: Broker, es: seq<Event>, id: Id, saves: bool, t: Token, spawn: Spawn, p: Id)
    requires t !in Run(b, es).launches
    ensures var now := Run(b, es);
      Account(b, es + [SetEnabledCalled(id, true, saves, t, spawn)], p) ==
        if id == p && !BrokerEffects.EnablingRefused(now, id, true) then Budget(0, 0) else Account(b, es, p)
  {
    var e := SetEnabledCalled(id, true, saves, t, spawn);
    assert (es + [e])[..|es|] == es;
    hide Run, ManifestFor;
  }
}
