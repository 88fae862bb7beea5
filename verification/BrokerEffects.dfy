/**
 What each call of the broker does, field by field: when it is refused, what it changes, and what it leaves
 alone. A step not named in an effect does not happen.
 */
module BrokerEffects {
  import opened Options
  import opened Plugins
  import opened BrokerState

  /** Only the record of plugin id may differ. */
  ghost predicate OnlyRecordOf(id: Id, registry: map<Id, Entry>, after: map<Id, Entry>)
  {
    forall k :: k != id ==> (k in after <==> k in registry) && (k in registry ==> after[k] == registry[k])
  }

  /** Nothing that runs has changed. */
  predicate SameProcesses(b: Broker, after: Broker)
  {
    after.runtimes == b.runtimes && after.launches == b.launches
  }

  predicate SameMonitor(b: Broker, after: Broker)
  {
    after.pending == b.pending && after.stopping == b.stopping
  }

  /** The file holds what memory holds when the save worked, and what it held before otherwise. */
  predicate SavedIf(b: Broker, after: Broker, saves: bool)
  {
    after.saved == if saves then after.registry else b.saved
  }

  /** A record is written, and the registry saved if that works. */
  lemma RecordWritten(b: Broker, id: Id, e: Entry, saves: bool)
    ensures var after := Save(WithEntry(b, id, e), saves);
      && after.disk == b.disk && after.registry == b.registry[id := e] && after.loose == b.loose
      && OnlyRecordOf(id, b.registry, after.registry) && SavedIf(b, after, saves)
      && SameProcesses(b, after) && SameMonitor(b, after)
  {
  }

  lemma SameThrough(b: Broker, b1: Broker, after: Broker, saves: bool)
    requires b1 == b.(disk := b1.disk)
    ensures SameProcesses(b, b1) && SameMonitor(b, b1)
    ensures SameProcesses(b1, after) ==> SameProcesses(b, after)
    ensures SameMonitor(b1, after) ==> SameMonitor(b, after)
    ensures SavedIf(b1, after, saves) ==> SavedIf(b, after, saves)
  {
  }

  // ---------------------------------------------------------------- stop and launch

  /** The process of plugin id, if it has one, is told to shut down and gone; nothing else is touched. */
  ghost predicate IsStopped(b: Broker, after: Broker, id: Id)
  {
    && after.runtimes == b.runtimes - {id} && after.launches.Keys == b.launches.Keys
    && forall t :: t in b.launches ==>
         if id in b.runtimes && b.runtimes[id] == t then
           after.launches[t] == b.launches[t].(
             alive := false, status := Stopped,
             toPlugin := b.launches[t].toPlugin + if b.launches[t].listening then [Shutdown(t)] else [])
         else after.launches[t] == b.launches[t]
  }

  lemma StopExactly(b: Broker, id: Id)
    ensures var after := StopPlugin(b, id);
      && IsStopped(b, after, id) && SameMonitor(b, after)
      && after.disk == b.disk && after.registry == b.registry && after.saved == b.saved
  {
    assert id !in b.runtimes ==> b.runtimes - {id} == b.runtimes;
    if id in b.runtimes && b.runtimes[id] in b.launches {
      SentExactly(b.launches[b.runtimes[id]], b.runtimes[id]);
    }
    hide Sent;
  }

  lemma SentExactly(l: Launch, t: Token)
    ensures Sent(l, Shutdown(t)) == l.(toPlugin := l.toPlugin + if l.listening then [Shutdown(t)] else [])
  {
    assert l.toPlugin + [] == l.toPlugin;
  }

  predicate AlreadyRuns(b: Broker, id: Id)
  {
    id in b.runtimes && b.runtimes[id] in b.launches && b.launches[b.runtimes[id]].alive
  }

  predicate MayLaunch(b: Broker, id: Id)
  {
    && ManifestFor(b, id).Some? && id in b.registry && b.registry[id].enabled
    && ManifestFor(b, id).value.capabilities <= b.registry[id].grants
  }

  /** The launch that a started process stands for: registered, greeted with these grants if it gets that far. */
  predicate NewlyLaunched(l: Launch, id: Id, t: Token, grants: set<string>, spawn: Spawn)
  {
    && l.pluginId == id && l.helloGrants == grants && l.status == Starting
    && (l.alive <==> spawn.Runs? || spawn.NoReaders? || spawn.ClosesInput?)
    && (l.listening <==> spawn.Runs? || spawn.NoReaders?)
    && l.toPlugin == (if spawn.Runs? then [Hello(t, grants)] else []) && l.toHost == []
    && l.sdk.token == t && !l.sdk.greeted && l.sdk.grants == {} && l.sdk.running
    && l.logs == [] && l.published == [] && l.accepted == []
  }

  lemma LaunchExactly(b: Broker, id: Id, t: Token, spawn: Spawn)
    ensures var (after, ok) := LaunchPlugin(b, id, t, spawn);
      && (ok <==> AlreadyRuns(b, id) || (MayLaunch(b, id) && spawn.Runs?))
      && (AlreadyRuns(b, id) || !MayLaunch(b, id) || spawn.Fails? ==> after == b)
      && (!AlreadyRuns(b, id) && MayLaunch(b, id) && !spawn.Fails? ==>
            && after.runtimes == b.runtimes[id := t] && t in after.launches
            && after.launches == b.launches[t := after.launches[t]]
            && NewlyLaunched(after.launches[t], id, t, b.registry[id].grants, spawn))
      && after.disk == b.disk && after.registry == b.registry && after.saved == b.saved && SameMonitor(b, after)
  {
    hide ManifestFor;
  }

  // ---------------------------------------------------------------- grants and enabling

  predicate GrantsRefused(b: Broker, id: Id, grants: set<string>)
  {
    || ManifestFor(b, id).None?
    || !(grants <= {"telemetry.read", "inventory.read", "history.read", "events.publish",
                    "network.listen", "network.connect", "settings.read"})
    || !(grants <= ManifestFor(b, id).value.capabilities)
  }

  /**
   Changing the grants is refused exactly without a manifest or for a capability that is unknown or not asked
   for. Otherwise the plugin is stopped, disabled, and holds exactly the grants given.
   */
  lemma GrantsAreStored(b: Broker, id: Id, grants: set<string>, saves: bool)
    ensures var (after, ok) := SetGrants(b, id, grants, saves);
      && (GrantsRefused(b, id, grants) ==> after == b && !ok)
      && (!GrantsRefused(b, id, grants) ==>
            && ok == saves && id in after.registry
            && after.registry[id].grants == grants && !after.registry[id].enabled
            && after.registry[id].restartCount == EntryOf(b, id).restartCount
            && after.registry[id].bundled == EntryOf(b, id).bundled
            && after.registry[id].recentLogs == EntryOf(b, id).recentLogs
            && OnlyRecordOf(id, b.registry, after.registry) && SavedIf(b, after, saves)
            && IsStopped(b, after, id) && SameMonitor(b, after) && after.disk == b.disk)
  {
    StopExactly(b, id);
    hide ManifestFor, StopPlugin;
  }

  predicate EnablingRefused(b: Broker, id: Id, enabled: bool)
  {
    || ManifestFor(b, id).None?
    || (enabled && !(ManifestFor(b, id).value.capabilities <= EntryOf(b, id).grants))
  }

  /** The record as an enable or disable leaves it; enabling clears the restart counter. */
  predicate EnabledRecord(before: Entry, after: Entry, enabled: bool)
  {
    && after.enabled == enabled && after.restartCount == (if enabled then 0 else before.restartCount)
    && after.grants == before.grants && after.bundled == before.bundled && after.recentLogs == before.recentLogs
  }

  /**
   Enabling is refused exactly without a manifest or with a capability not granted, and disabling without a
   manifest. Otherwise the record says so; and when it could be saved an enabled plugin runs, if its process
   can be started, and a disabled one is stopped.
   */
  lemma EnablingExactly(b: Broker, id: Id, enabled: bool, saves: bool, t: Token, spawn: Spawn)
    ensures var (after, ok) := SetEnabled(b, id, enabled, saves, t, spawn);
      && (EnablingRefused(b, id, enabled) ==> after == b && !ok)
      && (!EnablingRefused(b, id, enabled) ==>
            && id in after.registry && EnabledRecord(EntryOf(b, id), after.registry[id], enabled)
            && OnlyRecordOf(id, b.registry, after.registry) && SavedIf(b, after, saves)
            && SameMonitor(b, after) && after.disk == b.disk
            && (!saves ==> !ok && SameProcesses(b, after))
            && (saves && !enabled ==> ok && IsStopped(b, after, id))
            && (saves && enabled ==>
                  && (ok <==> AlreadyRuns(b, id) || spawn.Runs?)
                  && (AlreadyRuns(b, id) || spawn.Fails? ==> SameProcesses(b, after))
                  && (!AlreadyRuns(b, id) && !spawn.Fails? ==>
                        && after.runtimes == b.runtimes[id := t] && t in after.launches
                        && after.launches == b.launches[t := after.launches[t]]
                        && NewlyLaunched(after.launches[t], id, t, EntryOf(b, id).grants, spawn))))
  {
    hide ManifestFor, LaunchPlugin, StopPlugin, NewlyLaunched, IsStopped, AlreadyRuns;
    MarkedOnly(b, id, enabled, saves);
    if !EnablingRefused(b, id, enabled) && saves {
      if enabled {
        EnabledLaunches(b, id, t, spawn);
      } else {
        StopMarked(b, id);
      }
    }
    hide Marked, Save, OnlyRecordOf, EnabledRecord, EntryOf;
  }

  lemma MarkedOnly(b: Broker, id: Id, enabled: bool, saves: bool)
    ensures var after := Save(Marked(b, id, enabled), saves);
      && id in after.registry && EnabledRecord(EntryOf(b, id), after.registry[id], enabled)
      && OnlyRecordOf(id, b.registry, after.registry) && SavedIf(b, after, saves)
      && SameMonitor(b, after) && after.disk == b.disk && SameProcesses(b, after)
      && (!saves ==> after == Marked(b, id, enabled))
  {
  }

  lemma StopMarked(b: Broker, id: Id)
    ensures var marked := Save(Marked(b, id, false), true);
      var after := StopPlugin(marked, id);
      && IsStopped(b, after, id) && SameMonitor(b, after) && after.disk == b.disk
      && after.registry == marked.registry && after.saved == marked.saved
  {
    StopExactly(Save(Marked(b, id, false), true), id);
    hide StopPlugin;
  }

  lemma EnabledLaunches(b: Broker, id: Id, t: Token, spawn: Spawn)
    requires !EnablingRefused(b, id, true)
    ensures var marked := Save(Marked(b, id, true), true);
      var (after, ok) := LaunchPlugin(marked, id, t, spawn);
      && id in after.registry && EnabledRecord(EntryOf(b, id), after.registry[id], true)
      && OnlyRecordOf(id, b.registry, after.registry) && SavedIf(b, after, true)
      && SameMonitor(b, after) && after.disk == b.disk
      && (ok <==> AlreadyRuns(b, id) || spawn.Runs?)
      && (AlreadyRuns(b, id) || spawn.Fails? ==> SameProcesses(b, after))
      && (!AlreadyRuns(b, id) && !spawn.Fails? ==>
            && after.runtimes == b.runtimes[id := t] && t in after.launches
            && after.launches == b.launches[t := after.launches[t]]
            && NewlyLaunched(after.launches[t], id, t, EntryOf(b, id).grants, spawn))
  {
    var marked := Save(Marked(b, id, true), true);
    LaunchExactly(marked, id, t, spawn);
    assert ManifestFor(marked, id) == ManifestFor(b, id);
    hide LaunchPlugin, ManifestFor, NewlyLaunched;
  }

  /** A restart stops the plugin and launches it anew, when it may run at all. */
  lemma RestartExactly(b: Broker, id: Id, t: Token, spawn: Spawn)
    ensures var (after, ok) := Restart(b, id, t, spawn);
      && (ok <==> MayLaunch(b, id) && spawn.Runs?)
      && (!MayLaunch(b, id) || spawn.Fails? ==> IsStopped(b, after, id))
      && (MayLaunch(b, id) && !spawn.Fails? ==>
            && id in after.runtimes && after.runtimes[id] == t && t in after.launches
            && NewlyLaunched(after.launches[t], id, t, b.registry[id].grants, spawn))
      && after.disk == b.disk && after.registry == b.registry && after.saved == b.saved && SameMonitor(b, after)
  {
    StopExactly(b, id);
    LaunchExactly(StopPlugin(b, id), id, t, spawn);
    hide LaunchPlugin, StopPlugin, ReadManifest, ValidId, NewlyLaunched;
  }

  // ---------------------------------------------------------------- installing and removing

  /** A manifest is accepted exactly when it can be read, names its own directory, and asks for nothing unknown. */
  lemma ManifestAccepted(name: string, pkg: Package)
    ensures ReadManifest(name, pkg).Some? <==>
              && pkg.readable && name == pkg.declaredId && ValidId(name) && pkg.apiVersion == 1 && pkg.entrypointOk
              && pkg.capabilities <= {"telemetry.read", "inventory.read", "history.read", "events.publish",
                                      "network.listen", "network.connect", "settings.read"}
    ensures ReadManifest(name, pkg).Some? ==> ReadManifest(name, pkg).value == Manifest(name, pkg.capabilities)
  {
    hide ValidId;
  }

  predicate InstallRefused(b: Broker, name: string, pkg: Package)
  {
    ReadManifest(name, pkg).None? || (name in b.disk && name in b.registry && b.registry[name].enabled)
  }

  /**
   Installing is refused exactly for an unacceptable manifest, or for an installed plugin that is enabled.
   Otherwise the swap is made; when it goes through, the record says only that the plugin is not bundled. So a
   new plugin starts without grants and disabled, and an updated one keeps its grants.
   */
  lemma InstallExactly(b: Broker, name: string, pkg: Package, suffix: string, fault: Fault, saves: bool)
    ensures var (after, ok) := InstallArchive(b, name, pkg, suffix, fault, saves);
      var (disk, swapped) := Swap(b.disk, name, pkg, suffix, fault);
      && (InstallRefused(b, name, pkg) ==> after == b && !ok)
      && (!InstallRefused(b, name, pkg) ==>
            && after.disk == disk && (ok <==> swapped && saves)
            && SameProcesses(b, after) && SameMonitor(b, after)
            && (!swapped ==> after.registry == b.registry && after.saved == b.saved)
            && (swapped ==>
                  && name in after.registry && after.registry[name] == EntryOf(b, name).(bundled := false)
                  && OnlyRecordOf(name, b.registry, after.registry) && SavedIf(b, after, saves)))
  {
    ManifestAccepted(name, pkg);
    var b1 := b.(disk := Swap(b.disk, name, pkg, suffix, fault).0);
    var e := EntryOf(b1, name).(bundled := false);
    RecordWritten(b1, name, e, saves);
    SameThrough(b, b1, Save(WithEntry(b1, name, e), saves), saves);
    assert EntryOf(b1, name) == EntryOf(b, name);
    hide ReadManifest, Swap, OnlyRecordOf, SavedIf, SameProcesses, SameMonitor, WithEntry, Save;
  }

  /** Nothing going wrong, a package that may be installed is in place and recorded afterwards. */
  lemma InstallInstalls(b: Broker, name: string, pkg: Package, suffix: string)
    requires !InstallRefused(b, name, pkg)
    ensures var (after, ok) := InstallArchive(b, name, pkg, suffix, NoFault, true);
      && ok && after.disk == b.disk[name := pkg] && ManifestFor(after, name).Some?
      && after.registry[name].enabled == EntryOf(b, name).enabled
      && (name !in b.registry ==> !after.registry[name].enabled && after.registry[name].grants == {})
  {
    InstallExactly(b, name, pkg, suffix, NoFault, true);
    ManifestAccepted(name, pkg);
    hide ReadManifest, InstallArchive;
  }

  /** A bundled package is copied only when its directory is missing; its record is marked, if it was copied whole. */
  lemma BundledExactly(b: Broker, name: Id, pkg: Package, copied: bool, saves: bool)
    ensures var after := InstallBundled(b, name, pkg, copied, saves);
      && after.disk == (if name in b.disk then b.disk else b.disk[name := pkg])
      && SameProcesses(b, after) && SameMonitor(b, after)
      && (name !in b.disk && !copied ==> after.registry == b.registry && after.saved == b.saved)
      && (name in b.disk || copied ==>
            && name in after.registry && after.registry[name] == EntryOf(b, name).(bundled := true)
            && OnlyRecordOf(name, b.registry, after.registry) && SavedIf(b, after, saves))
  {
    hide OnlyRecordOf, EntryOf, SavedIf, SameProcesses, SameMonitor, WithEntry, Save;
    var b1 := if name in b.disk then b else b.(disk := b.disk[name := pkg]);
    RecordWritten(b1, name, EntryOf(b, name).(bundled := true), saves);
    SameThrough(b, b1, Save(WithEntry(b1, name, EntryOf(b, name).(bundled := true)), saves), saves);
  }

  predicate RemovalRefused(b: Broker, id: Id)
  {
    ManifestFor(b, id).None? || (id in b.registry && (b.registry[id].bundled || b.registry[id].enabled))
  }

  /** Refused exactly without a manifest, or for a bundled or enabled plugin; otherwise directory and record go. */
  lemma RemoveExactly(b: Broker, id: Id, left: Option<Package>, saves: bool)
    ensures var (after, ok) := RemovePlugin(b, id, left, saves);
      && (RemovalRefused(b, id) ==> after == b && !ok)
      && (!RemovalRefused(b, id) && left.Some? ==> after == b.(disk := b.disk[id := left.value]) && !ok)
      && (!RemovalRefused(b, id) && left.None? ==>
            && ok == saves && after.disk == b.disk - {id} && after.registry == b.registry - {id}
            && SavedIf(b, after, saves) && SameProcesses(b, after) && SameMonitor(b, after))
  {
    hide ManifestFor;
  }

  // ---------------------------------------------------------------- exit and relaunch

  /** The exit of a registered launch is followed by a relaunch exactly in this case. */
  predicate RelaunchFollows(b: Broker, t: Token, logSaves: bool, countSaves: bool)
  {
    && t in b.launches && b.launches[t].pluginId in b.runtimes && b.runtimes[b.launches[t].pluginId] == t
    && logSaves && countSaves && !b.stopping
    && EntryOf(b, b.launches[t].pluginId).enabled && EntryOf(b, b.launches[t].pluginId).restartCount < 5
  }

  /** The exit is counted: the plugin is enabled, the program is not stopping, and the log line could be saved. */
  predicate ExitCounts(b: Broker, id: Id, logSaves: bool)
  {
    logSaves && !b.stopping && EntryOf(b, id).enabled
  }

  /**
   An exit report schedules a relaunch exactly when its launch is the registered one, the plugin is enabled
   with fewer than five exits counted, the program is not stopping and both saves work. The report unregisters
   the plugin, adds one log line to its record, and counts the exit of an enabled plugin.
   */
  lemma ExitExactly(b: Broker, t: Token, logSaves: bool, countSaves: bool)
    ensures HandleExit(b, t, logSaves, countSaves).1 <==> RelaunchFollows(b, t, logSaves, countSaves)
    ensures !Registered(b, t) ==> HandleExit(b, t, logSaves, countSaves).0 == b
    ensures Registered(b, t) ==>
              var after := HandleExit(b, t, logSaves, countSaves).0;
              var id := b.launches[t].pluginId;
              && after.runtimes == b.runtimes - {id} && after.launches == b.launches && after.disk == b.disk
              && id in after.registry && OnlyRecordOf(id, b.registry, after.registry)
              && after.registry[id] == EntryOf(b, id).(
                   recentLogs := TakeLast(EntryOf(b, id).recentLogs + [LogLine("error", "Plugin exited")], 50),
                   restartCount := EntryOf(b, id).restartCount + if ExitCounts(b, id, logSaves) then 1 else 0)
              && after.stopping == b.stopping
              && after.pending == if RelaunchFollows(b, t, logSaves, countSaves) then Some(id) else b.pending
  {
  }

  /** The wait before a relaunch: two seconds for each exit counted, ten at most. */
  lemma BackoffExactly(n: nat)
    ensures n <= 5 ==> Backoff(n) == 2 * n
    ensures n >= 5 ==> Backoff(n) == 10
  {
  }

  /**
   A crash is repaired: after the exit of the registered process of an enabled and approved plugin, with fewer
   than five exits counted and nothing failing, the due relaunch puts a new process in its place.
   */
  lemma CrashIsRepaired(b: Broker, t: Token, u: Token)
    requires RelaunchFollows(b, t, true, true) && MayLaunch(b, b.launches[t].pluginId) && u !in b.launches
    requires !b.launches[t].alive && b.pending.None?
    ensures var id := b.launches[t].pluginId;
      var after := Step(Step(b, ExitSeen(t, true, true)), RelaunchDue(u, Runs));
      && id in after.runtimes && after.runtimes[id] == u && u in after.launches && after.launches[u].alive
      && after.launches[u].toPlugin == [Hello(u, b.registry[id].grants)] && after.pending == None
      && EntryOf(after, id).restartCount == b.registry[id].restartCount + 1
  {
    var id := b.launches[t].pluginId;
    ExitExactly(b, t, true, true);
    hide HandleExit;
    var exited := HandleExit(b, t, true, true).0;
    LaunchExactly(exited.(pending := None), id, u, Runs);
    hide LaunchPlugin, ReadManifest, ValidId;
  }

  /** When nothing is pending nothing happens; otherwise the pending plugin is launched as any other. */
  lemma RelaunchExactly(b: Broker, t: Token, spawn: Spawn)
    ensures Relaunch(b, t, spawn).pending == None
    ensures b.pending.None? ==> Relaunch(b, t, spawn) == b
    ensures b.pending.Some? ==>
              && SameProcesses(LaunchPlugin(b, b.pending.value, t, spawn).0, Relaunch(b, t, spawn))
              && Relaunch(b, t, spawn).registry == b.registry && Relaunch(b, t, spawn).disk == b.disk
  {
    if b.pending.Some? {
      var id := b.pending.value;
      var cleared := b.(pending := None);
      LaunchExactly(cleared, id, t, spawn);
      assert ManifestFor(cleared, id) == ManifestFor(b, id) && EntryOf(cleared, id) == EntryOf(b, id);
      hide ManifestFor, EntryOf;
    }
  }

  // ---------------------------------------------------------------- samples and lines

  /** A sample goes to exactly the registered live launches whose plugin is granted telemetry and that listen. */
  lemma SampleExactly(b: Broker, t: Token)
    ensures var goes := Registered(b, t) && b.launches[t].alive && b.launches[t].listening
                        && "telemetry.read" in EntryOf(b, b.launches[t].pluginId).grants;
      SendSample(b, t) ==
        if goes then
          b.(launches := b.launches[t := b.launches[t].(toPlugin := b.launches[t].toPlugin + [Sample(t)])])
        else b
  {
    hide EntryOf;
    if t in b.launches {
      assert b.launches[t := b.launches[t]] == b.launches;
    }
  }

  /** A late heartbeat marks exactly a registered live launch, and changes nothing else. */
  lemma LateExactly(b: Broker, t: Token)
    ensures MarkUnresponsive(b, t) ==
      if Registered(b, t) && b.launches[t].alive then
        b.(launches := b.launches[t := b.launches[t].(status := Unresponsive)])
      else b
  {
  }

  /** The last line of a launch's log and of its record. */
  predicate LoggedLast(b: Broker, t: Token, line: LogLine)
  {
    && t in b.launches && b.launches[t].pluginId in b.registry
    && var logs, recent := b.launches[t].logs, b.registry[b.launches[t].pluginId].recentLogs;
       logs != [] && logs[|logs| - 1] == line && recent != [] && recent[|recent| - 1] == line
  }

  /** The latest fifty of them go into the record, the latest three hundred stay with the launch. */
  lemma LogExactly(b: Broker, t: Token, line: LogLine)
    requires t in b.launches
    ensures var l := b.launches[t];
      var kept := LogLine(line.level, Take(line.text, 2000));
      var after := AppendLog(b, t, line);
      && t in after.launches && after.launches == b.launches[t := l.(logs := after.launches[t].logs)]
      && after.launches[t].logs == TakeLast(l.logs + [kept], 300)
      && OnlyRecordOf(l.pluginId, b.registry, after.registry) && l.pluginId in after.registry
      && after.registry[l.pluginId] == EntryOf(b, l.pluginId).(recentLogs := TakeLast(l.logs + [kept], 50))
      && LoggedLast(after, t, kept)
      && after.runtimes == b.runtimes && after.disk == b.disk && after.saved == b.saved && SameMonitor(b, after)
  {
    var logs := b.launches[t].logs + [Clipped(line)];
    assert TakeLast(TakeLast(logs, 300), 50) == TakeLast(logs, 50);
  }

  /**
   Reading one line: an authentic ready or heartbeat line shows the launch as running; a log line is logged; an
   event is taken in and logged under the grant; garbled and foreign lines are logged as warnings; anything
   else only leaves the pipe.
   */
  lemma LineExactly(l: Launch, t: Token, granted: bool)
    requires l.toHost != []
    ensures var m := l.toHost[0];
      var (after, line) := TakeLine(l, t, granted);
      var own := !m.Garbled? && m.token == t;
      && after.toHost == l.toHost[1..]
      && after.status == (if own && (m.Ready? || m.Heartbeat?) then Running else l.status)
      && after.accepted == (if own && m.EventMessage? && granted then l.accepted + [m.text] else l.accepted)
      && after == l.(toHost := after.toHost, status := after.status, accepted := after.accepted)
      && line == (if m.Garbled? then Some(LogLine("warning", "Invalid protocol output"))
                  else if m.token != t then Some(LogLine("warning", "Rejected unauthenticated plugin message"))
                  else if m.LogMessage? then Some(LogLine(m.level, m.text))
                  else if m.EventMessage? && granted then Some(LogLine("event", m.text))
                  else None)
  {
  }

  /** Reading a line of launch t looks at the grants its plugin has in the registry now. */
  lemma ReadExactly(b: Broker, t: Token)
    requires t in b.launches && b.launches[t].toHost != []
    ensures var l := b.launches[t];
      var (l', line) := TakeLine(l, t, l.pluginId in b.registry && "events.publish" in b.registry[l.pluginId].grants);
      var after := ReadStdout(b, t);
      && t in after.launches && after.launches[t] == l'.(logs := after.launches[t].logs)
      && (line.None? ==> after == b.(launches := b.launches[t := l']))
      && (line.Some? ==> LoggedLast(after, t, LogLine(line.value.level, Take(line.value.text, 2000))))
  {
    hide TakeLine, AppendLog;
    var l := b.launches[t];
    var (l', line) := TakeLine(l, t, "events.publish" in EntryOf(b, l.pluginId).grants);
    LineExactly(l, t, "events.publish" in EntryOf(b, l.pluginId).grants);
    if line.Some? {
      LogExactly(b.(launches := b.launches[t := l']), t, line.value);
    }
  }

  /** A program started again has the plugin root and the saved registry, and runs nothing. */
  lemma RestartedProgramIsFresh(b: Broker)
    ensures var after := RestartProgram(b);
      && after.disk == b.disk && after.registry == b.saved && after.saved == b.saved
      && after.runtimes == map[] && after.pending == None && !after.stopping
      && forall t :: t in after.launches ==> !after.launches[t].alive
  {
  }

  // ---------------------------------------------------------------- the process, and the events

  /** What the SDK reads is the next line sent; it answers on the other pipe. Only a live process reads. */
  lemma PluginReadsExactly(b: Broker, t: Token, now: real)
    ensures var takes := t in b.launches && b.launches[t].alive && b.launches[t].sdk.running
                         && b.launches[t].toPlugin != [];
      && (!takes ==> PluginReads(b, t, now) == b)
      && (takes ==>
            var l := b.launches[t];
            var (sdk, out) := SdkRead(l.sdk, l.toPlugin[0], now);
            var after := PluginReads(b, t, now);
            && after == b.(launches := after.launches) && t in after.launches
            && after.launches == b.launches[t := after.launches[t]]
            && after.launches[t] == l.(sdk := sdk, toPlugin := l.toPlugin[1..], toHost := l.toHost + out,
                                       orderly := after.launches[t].orderly))
  {
    hide SdkRead;
  }

  /** What a process writes or takes by itself. Only a live one does; an event is published only under its grant. */
  lemma ProcessActsExactly(b: Broker, t: Token, m: PluginMessage, text: string)
    requires t in b.launches
    ensures var l := b.launches[t];
      var printed, published, taken := PluginPrints(b, t, m), PluginPublishes(b, t, text), PluginTakes(b, t);
      && (!l.alive ==> printed == b && published == b && taken == b)
      && (l.alive ==> t in printed.launches && printed.launches[t].toHost == l.toHost + [m])
      && (l.alive && "events.publish" !in l.sdk.grants ==> published == b)
      && (l.alive && "events.publish" in l.sdk.grants ==>
            && t in published.launches
            && published.launches[t].toHost == l.toHost + [EventMessage(l.sdk.token, text)]
            && published.launches[t].published == l.published + [text])
      && (l.alive && l.toPlugin != [] ==> t in taken.launches && taken.launches[t].toPlugin == l.toPlugin[1..])
      && ClosesItsInput(b, t) == b.(launches := b.launches[t := l.(listening := false)])
      && ProcessDies(b, t) == b.(launches := b.launches[t := l.(alive := false)])
  {
  }

  /** Every event of a run that calls the broker, or that its threads see, has the effect of that call alone. */
  lemma EventsAreCalls(b: Broker, e: Event)
    requires Possible(b, e)
    ensures e.SetGrantsCalled? ==> Step(b, e) == SetGrants(b, e.id, e.grants, e.saves).0
    ensures e.SetEnabledCalled? ==> Step(b, e) == SetEnabled(b, e.id, e.enabled, e.saves, e.token, e.spawn).0
    ensures e.RestartCalled? ==> Step(b, e) == Restart(b, e.id, e.token, e.spawn).0
    ensures e.LaunchCalled? ==> Step(b, e) == LaunchPlugin(b, e.id, e.token, e.spawn).0
    ensures e.StopCalled? ==> Step(b, e) == StopPlugin(b, e.id)
    ensures e.InstallCalled? ==> Step(b, e) == InstallArchive(b, e.dirName, e.pkg, e.suffix, e.fault, e.saves).0
    ensures e.BundledFound? ==> Step(b, e) == InstallBundled(b, e.name, e.pkg, e.copied, e.saves)
    ensures e.RemoveCalled? ==> Step(b, e) == RemovePlugin(b, e.id, e.left, e.saves).0
    ensures e.ExitSeen? ==> Step(b, e) == HandleExit(b, e.dead, e.logSaves, e.countSaves).0
    ensures e.RelaunchDue? ==> Step(b, e) == Relaunch(b, e.token, e.spawn)
    ensures e.SampleSent? ==> Step(b, e) == SendSample(b, e.to)
    ensures e.HeartbeatLate? ==> Step(b, e) == MarkUnresponsive(b, e.of)
    ensures e.LineFromPlugin? ==> Step(b, e) == ReadStdout(b, e.from)
    ensures e.PluginReadsLine? ==> Step(b, e) == PluginReads(b, e.reader, e.now)
    ensures e.ProgramRestarts? ==> Step(b, e) == RestartProgram(b)
  {
    hide SetGrants, SetEnabled, Restart, LaunchPlugin, StopPlugin, Relaunch, RestartProgram;
    hide InstallArchive, InstallBundled, RemovePlugin, Logged, HandleExit;
    hide SendSample, MarkUnresponsive, ReadStdout, PluginReads, PluginPublishes, PluginPrints, PluginTakes;
    hide ClosesItsInput, ProcessDies;
  }
}
