/**
 The broker's methods, updating its dictionaries step by step, against the transitions of BrokerState.
 */
module PluginBroker {
  import opened Options
  import opened Plugins
  import opened BrokerState
  import BrokerSafety

  class Broker {
    var disk: map<string, Package>
    var registry: map<Id, Entry>
    var savedRegistry: map<Id, Entry>
    var runtimes: map<Id, Token>
    var launches: map<Token, Launch>
    var pending: Option<Id>
    var stopping: bool
    /** The registered plugins that were disabled without being stopped. */
    ghost var loose: set<Id>

    ghost function State(): BrokerState.Broker
      reads this
    {
      BrokerState.Broker(disk, registry, savedRegistry, runtimes, launches, loose, pending, stopping)
    }

    constructor (disk: map<string, Package>, registry: map<Id, Entry>)
      ensures Fresh(State()) && this.disk == disk && this.registry == registry
    {
      this.disk, this.registry, savedRegistry := disk, registry, registry;
      runtimes, launches, pending, stopping, loose := map[], map[], None, false, {};
    }

    /** Writes the registry to its file; raises when that fails. */
    method SaveRegistry(saves: bool) returns (ok: bool)
      modifies this`savedRegistry
      ensures State() == Save(old(State()), saves) && ok == saves
    {
      if saves {
        savedRegistry := registry;
      }
      return saves;
    }

    /** A plugin's registry record, empty when there is none yet. */
    method SetDefault(id: Id) returns (e: Entry)
      ensures e == EntryOf(State(), id)
    {
      e := if id in registry then registry[id] else NEW_ENTRY;
    }

    method ReadManifestFor(id: Id) returns (m: Option<Manifest>)
      ensures m == ManifestFor(State(), id)
    {
      if !ValidId(id) || id !in disk {
        return None;
      }
      m := ReadManifest(id, disk[id]);
    }

    method Stop(id: Id)
      modifies this
      ensures State() == StopPlugin(old(State()), id)
      ensures old(BrokerSafety.Inv(State())) ==> BrokerSafety.Inv(State())
    {
      hide BrokerSafety.Inv;
      if BrokerSafety.Inv(State()) { BrokerSafety.StopKeeps(State(), id); }
      if id !in runtimes {
        return;
      }
      var t := runtimes[id];
      runtimes, loose := runtimes - {id}, loose - {id};
      if t in launches {
        var l := launches[t];
        l := Sent(l, Shutdown(t));
        l := l.(alive := false);
        l := l.(status := Stopped);
        launches := launches[t := l];
      }
    }

    method Launch(id: Id, t: Token, spawn: Spawn) returns (ok: bool)
      modifies this
      ensures (State(), ok) == LaunchPlugin(old(State()), id, t, spawn)
      ensures old(BrokerSafety.Inv(State())) && t !in old(launches) ==> BrokerSafety.Inv(State())
    {
      hide BrokerSafety.Inv, ManifestFor, Approved, Begun;
      ghost var before := State();
      if id in runtimes && runtimes[id] in launches && launches[runtimes[id]].alive {
        return true;
      }
      var approved := MayBeSet(id, true);
      var e := SetDefault(id);
      if !approved || !e.enabled || spawn.Fails? {
        return false;
      }
      ok := Begin(id, e.grants, t, spawn);
      if BrokerSafety.Inv(before) && t !in before.launches {
        BrokerSafety.LaunchKeeps(before, id, t, spawn);
      }
    }

    /** Registers a started process; says whether its readers started and its hello was written. */
    method Begin(id: Id, grants: set<string>, t: Token, spawn: Spawn) returns (ok: bool)
      requires !spawn.Fails? && grants == EntryOf(State(), id).grants
      modifies this`runtimes, this`launches, this`loose
      ensures State() == Begun(old(State()), id, t, spawn) && ok == spawn.Runs?
    {
      var l := BrokerState.Launch(id, grants, Starting, true, true, [], [], NewSdk(t), true, [], [], []);
      runtimes, loose := runtimes[id := t], loose - {id};
      ok := false;
      if spawn.Runs? {
        l := Sent(l, Hello(t, grants));
        assert l.toPlugin == [Hello(t, grants)];
        ok := true;
      } else if !spawn.NoReaders? {
        l := l.(alive := spawn.ClosesInput?, listening := false);
      }
      launches := launches[t := l];
    }

    method SetGrants(id: Id, grants: set<string>, saves: bool) returns (ok: bool)
      modifies this
      ensures (State(), ok) == BrokerState.SetGrants(old(State()), id, grants, saves)
      ensures old(BrokerSafety.Inv(State())) ==> BrokerSafety.Inv(State())
    {
      hide BrokerSafety.Inv, ManifestFor, StopPlugin;
      if BrokerSafety.Inv(State()) { BrokerSafety.SetGrantsKeeps(State(), id, grants, saves); }
      var m := ReadManifestFor(id);
      if m.None? {
        return false;
      }
      var unknown := grants - KNOWN_CAPABILITIES;
      var unrequested := grants - m.value.capabilities;
      EmptyDifference(grants, KNOWN_CAPABILITIES);
      EmptyDifference(grants, m.value.capabilities);
      if unknown != {} || unrequested != {} {
        return false;
      }
      BrokerState.StopRecordsNothing(State(), id);
      Stop(id);
      var e := SetDefault(id);
      registry := registry[id := e.(grants := grants, enabled := false)];
      ok := SaveRegistry(saves);
    }

    method SetEnabled(id: Id, enabled: bool, saves: bool, t: Token, spawn: Spawn) returns (ok: bool)
      modifies this
      ensures (State(), ok) == BrokerState.SetEnabled(old(State()), id, enabled, saves, t, spawn)
      ensures old(BrokerSafety.Inv(State())) && t !in old(launches) ==> BrokerSafety.Inv(State())
    {
      hide BrokerSafety.Inv, ManifestFor, Approved, LaunchPlugin, StopPlugin, Marked;
      if BrokerSafety.Inv(State()) && t !in launches {
        BrokerSafety.SetEnabledKeeps(State(), id, enabled, saves, t, spawn);
      }
      ok := MayBeSet(id, enabled);
      if !ok {
        return;
      }
      MarkEnabled(id, enabled);
      ok := SaveRegistry(saves);
      if !ok {
        loose := if !enabled && id in runtimes then loose + {id} else loose;
        return;
      }
      if enabled {
        ok := Launch(id, t, spawn);
      } else {
        Stop(id);
        ok := true;
      }
    }

    /** Is there a manifest, and, to enable the plugin, every requested capability granted? */
    method MayBeSet(id: Id, enabled: bool) returns (ok: bool)
      ensures ok <==> ManifestFor(State(), id).Some? && (enabled ==> Approved(State(), id))
    {
      hide ValidId, ReadManifest;
      var m := ReadManifestFor(id);
      if m.None? {
        return false;
      }
      var e := SetDefault(id);
      return !enabled || m.value.capabilities <= e.grants;
    }

    method MarkEnabled(id: Id, enabled: bool)
      modifies this`registry
      ensures State() == Marked(old(State()), id, enabled)
    {
      var e := SetDefault(id);
      e := e.(enabled := enabled);
      if enabled {
        e := e.(restartCount := 0);
      }
      registry := registry[id := e];
    }

    /** Whatever stands at the package's place goes; what was set aside comes back. Either may fail. */
    method RollBack(id: Id, backup: string, fault: Fault)
      requires backup != id
      modifies this`disk
      ensures disk ==
              if fault.PurgeFails? && id in old(disk) then old(disk)[id := fault.left]
              else if backup !in old(disk) || fault.RollBackFails? then old(disk) - {id}
              else old(disk)[id := old(disk)[backup]] - {backup}
    {
      if id in disk {
        if fault.PurgeFails? {
          disk := disk[id := fault.left];
          return;
        }
        disk := disk - {id};
      }
      if backup in disk && !fault.RollBackFails? {
        disk := disk[id := disk[backup]] - {backup};
      }
    }

    /** The move, its validation and, when either fails, the way back; says whether the package is in place. */
    method MoveStaged(id: Id, staged: string, backup: string, pkg: Package, fault: Fault) returns (installed: bool)
      requires staged != id && staged != backup && backup != id
      requires staged in disk && id !in disk && disk[staged] == pkg && ReadManifest(id, pkg).Some?
      modifies this`disk
      ensures installed <==> fault.NoFault? || fault.CopyFails? || fault.BackupMoveFails? || fault.BackupRemovalFails?
      ensures var before := old(disk) - {staged};
        disk ==
        if installed then before[id := pkg]
        else if fault.PurgeFails? then before[id := fault.left]
        else if backup !in before || fault.RollBackFails? then WithStaged(before, staged, fault)
        else WithStaged(before[id := before[backup]] - {backup}, staged, fault)
    {
      hide ReadManifest;
      installed := false;
      if !fault.MoveFails? && !fault.StagingRemovalFails? {
        disk := disk[id := disk[staged]] - {staged};
        installed := !fault.ValidationFails? && !fault.RollBackFails? && !fault.PurgeFails?
                     && ReadManifest(id, disk[id]).Some?;
      }
      if !installed {
        RollBack(id, backup, fault);
      }
      if staged in disk {
        if fault.StagingRemovalFails? {
          disk := disk[staged := fault.left];
        } else {
          disk := disk - {staged};
        }
      }
    }

    /** The directory swap: copy to a private name, set the old directory aside, move, validate, clean up. */
    method SwapPackage(id: Id, pkg: Package, suffix: string, fault: Fault) returns (ok: bool)
      requires ReadManifest(id, pkg).Some?
      requires StagingName(id, suffix) !in disk && BackupName(id, suffix) !in disk
      modifies this`disk
      ensures (disk, ok) == Swap(old(disk), id, pkg, suffix, fault)
    {
      PrivateNamesDiffer(id, suffix);
      assert id != StagingName(id, suffix) && id != BackupName(id, suffix);
      hide ValidId, StagingName, BackupName, ReadManifest;
      var staged, backup := StagingName(id, suffix), BackupName(id, suffix);
      if fault.CopyFails? {
        if fault.partial.Some? {
          disk := disk[staged := fault.partial.value];
        }
        return false;
      }
      disk := disk[staged := pkg];
      if id in disk {
        if fault.BackupMoveFails? {
          return false;
        }
        disk := disk[backup := disk[id]] - {id};
      }
      ghost var aside := disk;
      ok := MoveStaged(id, staged, backup, pkg, fault);
      if !ok {
        SwapWentBack(old(disk), aside, disk, id, pkg, suffix, fault);
        return;
      }
      if backup in disk {
        if fault.BackupRemovalFails? {
          disk := disk[backup := fault.left];
          assert disk == old(disk)[id := pkg][backup := fault.left];
          return false;
        }
        disk := disk - {backup};
      }
      assert disk == old(disk)[id := pkg];
    }

    method InstallArchive(dirName: string, pkg: Package, suffix: string, fault: Fault, saves: bool)
      returns (ok: bool)
      requires StagingName(pkg.declaredId, suffix) !in disk && BackupName(pkg.declaredId, suffix) !in disk
      modifies this
      ensures (State(), ok) == BrokerState.InstallArchive(old(State()), dirName, pkg, suffix, fault, saves)
      ensures old(BrokerSafety.Inv(State())) ==> BrokerSafety.Inv(State())
    {
      hide BrokerSafety.Inv, ReadManifest, BrokerState.PutInPlace, StagingName, BackupName, EntryOf;
      if BrokerSafety.Inv(State()) { BrokerSafety.InstallKeeps(State(), dirName, pkg, suffix, fault, saves); }
      var m := ReadManifest(dirName, pkg);
      if m.None? {
        return false;
      }
      BrokerSafety.ManifestNamed(dirName, pkg);
      var id := m.value.id;
      var e := SetDefault(id);
      if id in disk && e.enabled {
        return false;
      }
      ok := PutInPlace(id, pkg, suffix, fault, saves);
    }

    /** The swap and, when it went through, the record of the installed package. */
    method PutInPlace(id: Id, pkg: Package, suffix: string, fault: Fault, saves: bool) returns (ok: bool)
      requires ReadManifest(id, pkg).Some?
      requires StagingName(id, suffix) !in disk && BackupName(id, suffix) !in disk
      modifies this`disk, this`registry, this`savedRegistry
      ensures (State(), ok) == BrokerState.PutInPlace(old(State()), id, pkg, suffix, fault, saves)
    {
      ok := SwapPackage(id, pkg, suffix, fault);
      hide Swap, ReadManifest, StagingName, BackupName;
      if ok {
        var e := SetDefault(id);
        registry := registry[id := e.(bundled := false)];
        ok := SaveRegistry(saves);
      }
    }

    method Remove(id: Id, left: Option<Package>, saves: bool) returns (ok: bool)
      modifies this
      ensures (State(), ok) == RemovePlugin(old(State()), id, left, saves)
      ensures old(BrokerSafety.Inv(State())) ==> BrokerSafety.Inv(State())
    {
      hide BrokerSafety.Inv;
      if BrokerSafety.Inv(State()) { BrokerSafety.RemoveKeeps(State(), id, left, saves); }
      var m := ReadManifestFor(id);
      var e := SetDefault(id);
      if m.None? || e.bundled || e.enabled {
        return false;
      }
      if left.Some? {
        disk := disk[id := left.value];
        return false;
      }
      disk := disk - {id};
      registry := registry - {id};
      ok := SaveRegistry(saves);
    }

    /** `pkg` is the bundled package, or what a copy that failed part-way left of it. */
    method InstallBundled(name: Id, pkg: Package, copied: bool, saves: bool)
      modifies this
      ensures State() == BrokerState.InstallBundled(old(State()), name, pkg, copied, saves)
      ensures old(BrokerSafety.Inv(State())) ==> BrokerSafety.Inv(State())
    {
      hide BrokerSafety.Inv;
      if BrokerSafety.Inv(State()) { BrokerSafety.BundledKeeps(State(), name, pkg, copied, saves); }
      if name !in disk {
        disk := disk[name := pkg];
        if !copied {
          return;
        }
      }
      var e := SetDefault(name);
      registry := registry[name := e.(bundled := true)];
      var _ := SaveRegistry(saves);
    }

    /** The restart route. */
    method Restart(id: Id, t: Token, spawn: Spawn) returns (ok: bool)
      modifies this
      ensures (State(), ok) == BrokerState.Restart(old(State()), id, t, spawn)
      ensures old(BrokerSafety.Inv(State())) && t !in old(launches) ==> BrokerSafety.Inv(State())
    {
      hide BrokerSafety.Inv;
      if BrokerSafety.Inv(State()) && t !in launches { BrokerSafety.RestartKeeps(State(), id, t, spawn); }
      Stop(id);
      ok := Launch(id, t, spawn);
    }

    method RecordLog(id: Id, line: LogLine, saves: bool) returns (ok: bool)
      modifies this`registry, this`savedRegistry
      ensures State() == Logged(old(State()), id, line, saves) && ok == saves
      ensures old(BrokerSafety.Inv(State())) ==> BrokerSafety.Inv(State())
    {
      hide BrokerSafety.Inv;
      if BrokerSafety.Inv(State()) { BrokerSafety.SystemLogKeeps(State(), id, line, saves); }
      var e := SetDefault(id);
      var logs := e.recentLogs + [line];
      registry := registry[id := e.(recentLogs := TakeLast(logs, RECENT_LOGS))];
      ok := SaveRegistry(saves);
    }

    /** The monitor has seen that the process of launch t is gone. */
    method ExitSeen(t: Token, logSaves: bool, countSaves: bool) returns (scheduled: bool)
      requires t in launches
      modifies this
      ensures (State(), scheduled) == HandleExit(old(State()), t, logSaves, countSaves)
      ensures old(BrokerSafety.Inv(State())) && !old(launches)[t].alive ==> BrokerSafety.Inv(State())
    {
      hide BrokerSafety.Inv, Logged;
      if BrokerSafety.Inv(State()) && !launches[t].alive { BrokerSafety.ExitKeeps(State(), t, logSaves, countSaves); }
      var id := launches[t].pluginId;
      if id !in runtimes || runtimes[id] != t {
        return false;
      }
      runtimes, loose := runtimes - {id}, loose - {id};
      var saved := RecordLog(id, EXIT_LINE, logSaves);
      if !saved {
        return false;
      }
      var e := SetDefault(id);
      scheduled := false;
      if e.enabled && !stopping {
        var restarts := e.restartCount + 1;
        registry := registry[id := e.(restartCount := restarts)];
        saved := SaveRegistry(countSaves);
        if saved && restarts <= MAX_RESTARTS {
          pending := Some(id);
          scheduled := true;
        }
      }
    }

    /** The end of the monitor's sleep after an exit. */
    method RelaunchDue(t: Token, spawn: Spawn)
      modifies this
      ensures State() == Relaunch(old(State()), t, spawn)
      ensures old(BrokerSafety.Inv(State())) && t !in old(launches) ==> BrokerSafety.Inv(State())
    {
      hide BrokerSafety.Inv;
      if BrokerSafety.Inv(State()) && t !in launches { BrokerSafety.RelaunchKeeps(State(), t, spawn); }
      match pending {
        case None =>
        case Some(id) =>
          pending := None;
          var _ := Launch(id, t, spawn);
      }
    }

    /** The rest of one turn of the monitor for a live runtime. */
    method Attend(t: Token, heartbeatLate: bool)
      modifies this
      ensures var sampled := SendSample(old(State()), t);
        State() == if heartbeatLate then MarkUnresponsive(sampled, t) else sampled
      ensures old(BrokerSafety.Inv(State())) ==> BrokerSafety.Inv(State())
    {
      hide BrokerSafety.Inv;
      if BrokerSafety.Inv(State()) { BrokerSafety.AttendKeeps(State(), t); }
      if t !in launches || launches[t].pluginId !in runtimes {
        return;
      }
      if runtimes[launches[t].pluginId] != t || !launches[t].alive {
        return;
      }
      var e := SetDefault(launches[t].pluginId);
      if "telemetry.read" in e.grants {
        launches := launches[t := Sent(launches[t], Sample(t))];
      }
      if heartbeatLate {
        launches := launches[t := launches[t].(status := Unresponsive)];
      }
    }

    method AppendRuntimeLog(t: Token, line: LogLine)
      requires t in launches
      modifies this
      ensures State() == AppendLog(old(State()), t, line)
      ensures old(BrokerSafety.Inv(State())) ==> BrokerSafety.Inv(State())
    {
      hide BrokerSafety.Inv;
      if BrokerSafety.Inv(State()) { BrokerSafety.AppendLogKeeps(State(), t, line); }
      var l := launches[t];
      l := l.(logs := TakeLast(l.logs + [Clipped(line)], RUNTIME_LOGS));
      launches := launches[t := l];
      var e := SetDefault(l.pluginId);
      registry := registry[l.pluginId := e.(recentLogs := TakeLast(l.logs, RECENT_LOGS))];
    }

    /** One line of a plugin's output: what becomes of the runtime, and what is to be logged. */
    method HandleMessage(t: Token, l: Launch) returns (l': Launch, line: Option<LogLine>)
      requires l.toHost != []
      ensures (l', line) == TakeLine(l, t, "events.publish" in EntryOf(State(), l.pluginId).grants)
    {
      var m := l.toHost[0];
      l' := l.(toHost := l.toHost[1..]);
      if m.Garbled? {
        return l', Some(LogLine("warning", "Invalid protocol output"));
      }
      if m.token != t {
        return l', Some(LogLine("warning", "Rejected unauthenticated plugin message"));
      }
      line := None;
      match m {
        case Ready(_) => l' := l'.(status := Running);
        case Heartbeat(_) => l' := l'.(status := Running);
        case LogMessage(_, level, text) => line := Some(LogLine(level, text));
        case EventMessage(_, text) =>
          var e := SetDefault(l.pluginId);
          if "events.publish" in e.grants {
            l' := l'.(accepted := l'.accepted + [text]);
            line := Some(LogLine("event", text));
          }
        case Unknown(_) =>
      }
    }

    method ReadLine(t: Token)
      modifies this
      ensures State() == ReadStdout(old(State()), t)
      ensures old(BrokerSafety.Inv(State())) ==> BrokerSafety.Inv(State())
    {
      hide BrokerSafety.Inv, TakeLine, AppendLog;
      if BrokerSafety.Inv(State()) { BrokerSafety.ReadStdoutKeeps(State(), t); }
      if t !in launches || launches[t].toHost == [] {
        return;
      }
      var l, line := HandleMessage(t, launches[t]);
      launches := launches[t := l];
      if line.Some? {
        AppendRuntimeLog(t, line.value);
      }
    }
  }

  /** What is left of the staged directory when it is still there and cannot be removed. */
  function WithStaged(disk: map<string, Package>, staged: string, fault: Fault): map<string, Package>
  {
    if fault.StagingRemovalFails? then disk[staged := fault.left] else disk
  }

  /** After a failed move the plugin root is as the transition says. */
  lemma SwapWentBack(before: map<string, Package>, aside: map<string, Package>, after: map<string, Package>,
      id: Id, pkg: Package, suffix: string, fault: Fault)
    requires var staged, backup := StagingName(id, suffix), BackupName(id, suffix);
      && staged != id && staged != backup && backup != id && staged !in before && backup !in before
      && aside == (if id in before then before[staged := pkg][backup := before[id]] - {id} else before[staged := pkg])
    requires var staged, backup := StagingName(id, suffix), BackupName(id, suffix);
      var rest := aside - {staged};
      after ==
      if fault.PurgeFails? then rest[id := fault.left]
      else if backup !in rest || fault.RollBackFails? then WithStaged(rest, staged, fault)
      else WithStaged(rest[id := rest[backup]] - {backup}, staged, fault)
    requires fault.MoveFails? || fault.ValidationFails? || fault.RollBackFails? || fault.PurgeFails?
             || fault.StagingRemovalFails?
    ensures Swap(before, id, pkg, suffix, fault) == (after, false)
  {
    hide StagingName, BackupName;
    var swapped := Swap(before, id, pkg, suffix, fault).0;
    assert after.Keys == swapped.Keys;
    assert after == swapped;
  }

  lemma EmptyDifference(a: set<string>, b: set<string>)
    ensures a - b == {} <==> a <= b
  {
    if a - b == {} {
      forall x | x in a ensures x in b {
        assert x !in a - b;
      }
    }
  }

  lemma PrivateNamesDiffer(id: Id, suffix: string)
    ensures StagingName(id, suffix) != BackupName(id, suffix)
    ensures ValidId(id) ==> id != StagingName(id, suffix) && id != BackupName(id, suffix)
  {
    var k := |id| + 2;
    assert StagingName(id, suffix)[k] == 's' && BackupName(id, suffix)[k] == 'b';
    assert StagingName(id, suffix)[0] == '.' && BackupName(id, suffix)[0] == '.';
  }

  /** Directories under private names, which only a swap creates. */
  predicate Private(name: string, id: Id, suffix: string)
  {
    name == StagingName(id, suffix) || name == BackupName(id, suffix)
  }

  /** The old directory could not be set aside, not be put back, or not be removed afterwards. */
  predicate BackupTrouble(fault: Fault, id: Id, disk: map<string, Package>)
  {
    (fault.BackupMoveFails? || fault.BackupRemovalFails? || fault.RollBackFails? || fault.PurgeFails?) && id in disk
  }

  /** The package's own directory is not what it was although the swap failed. */
  predicate OwnDirectoryHurt(fault: Fault)
  {
    fault.BackupRemovalFails? || fault.RollBackFails? || fault.PurgeFails?
  }

  /**
   The swap is transactional. A move or validation that fails leaves the plugin root as it was; a swap
   that succeeds changes only the package's own directory. A failed swap leaves the package's own
   directory changed only when the old one could not be put back or removed or the new one not be removed,
   and a private directory is left behind exactly when the copy itself fails part-way, the staged one cannot
   be removed, or there was trouble with the old directory.
   */
  lemma SwapIsTransactional(disk: map<string, Package>, id: Id, pkg: Package, suffix: string, fault: Fault)
    requires ReadManifest(id, pkg).Some?
    requires StagingName(id, suffix) !in disk && BackupName(id, suffix) !in disk
    ensures var (after, ok) := Swap(disk, id, pkg, suffix, fault);
      && (ok <==> fault.NoFault? || (id !in disk && (fault.BackupMoveFails? || fault.BackupRemovalFails?)))
      && (ok ==> after == disk[id := pkg] && ReadManifest(id, after[id]).Some?)
      && (fault.MoveFails? || fault.ValidationFails? ==> !ok && after == disk)
      && (forall name :: !Private(name, id, suffix) && (name != id || (!ok && !OwnDirectoryHurt(fault))) ==>
            (name in after <==> name in disk) && (name in disk ==> after[name] == disk[name]))
      && ((exists name :: Private(name, id, suffix) && name in after)
          <==> || (fault.CopyFails? && fault.partial.Some?)
               || fault.StagingRemovalFails?
               || BackupTrouble(fault, id, disk))
      && (fault.BackupRemovalFails? && id in disk ==> !ok && id in after && after[id] == pkg)
  {
    PrivateNamesDiffer(id, suffix);
    assert Private(StagingName(id, suffix), id, suffix) && Private(BackupName(id, suffix), id, suffix);
    hide ValidId, ReadManifest, StagingName, BackupName;
  }

  /** When the old directory cannot be put back, the plugin is gone from its place. */
  lemma RollBackMayLosePlace(disk: map<string, Package>, id: Id, pkg: Package, suffix: string)
    requires ReadManifest(id, pkg).Some? && id in disk
    requires StagingName(id, suffix) !in disk && BackupName(id, suffix) !in disk
    ensures var (after, ok) := Swap(disk, id, pkg, suffix, RollBackFails);
      !ok && id !in after && BackupName(id, suffix) in after && after[BackupName(id, suffix)] == disk[id]
  {
    PrivateNamesDiffer(id, suffix);
    hide ReadManifest, StagingName, BackupName;
  }
}
