/**
 What every step of the broker keeps, and what follows for whole runs.
 */
module BrokerSafety {
  import opened Options
  import opened Plugins
  import opened BrokerState

  // ---------------------------------------------------------------- the protocol of one launch

  function EventTexts(t: Token, m: PluginMessage): seq<string>
  {
    if Authentic(t, m) && m.EventMessage? then [m.text] else []
  }

  /** The texts of the events of launch t waiting in a pipe. */
  function EventsIn(t: Token, pipe: seq<PluginMessage>): seq<string>
  {
    if pipe == [] then [] else EventTexts(t, pipe[0]) + EventsIn(t, pipe[1..])
  }

  ghost predicate HostLineOk(t: Token, pipe: seq<HostMessage>, i: nat, greeted: bool, grants: set<string>)
    requires i < |pipe|
  {
    && pipe[i].token == t
    && (pipe[i].Sample? ==> "telemetry.read" in grants)
    && (pipe[i].Hello? ==> i == 0 && !greeted && pipe[i].grants == grants)
  }

  /** The hello comes first and only once and carries these grants; samples travel only under their grant. */
  ghost predicate HostPipeOk(t: Token, pipe: seq<HostMessage>, greeted: bool, grants: set<string>)
  {
    forall i :: 0 <= i < |pipe| ==> HostLineOk(t, pipe, i, greeted, grants)
  }

  ghost predicate NoStatusLine(t: Token, pipe: seq<PluginMessage>)
  {
    forall i :: 0 <= i < |pipe| ==> !StatusLine(t, pipe[i])
  }

  /**
   Whatever the process writes: the SDK holds the grants of this launch once it has handled its hello, and
   none before. A launch that has been orderly and whose SDK is ungreeted has no line on its way that would
   show it as running, and is not shown so.
   */
  ghost predicate LaunchOk(t: Token, l: Launch)
  {
    && l.sdk.token == t
    && HostPipeOk(t, l.toPlugin, l.sdk.greeted, l.helloGrants)
    && (l.sdk.grants == if l.sdk.greeted then l.helloGrants else {})
    && (l.orderly ==> l.sdk.greeted || (NoStatusLine(t, l.toHost) && l.status != Running))
  }

  /**
   Under the grant, every event the process wrote was taken in, in order, or is still on its way;
   without it, none was taken in.
   */
  ghost predicate Delivered(t: Token, l: Launch)
  {
    if "events.publish" in l.helloGrants then l.published == l.accepted + EventsIn(t, l.toHost)
    else l.accepted == []
  }

  /** What holds of a registered plugin that has not been disabled under its running process. */
  ghost predicate Supervised(b: Broker, id: Id)
    requires id in b.runtimes && b.runtimes[id] in b.launches
  {
    var l := b.launches[b.runtimes[id]];
    && EntryOf(b, id).enabled
    && Approved(b, id)
    && l.helloGrants == EntryOf(b, id).grants
    && Delivered(b.runtimes[id], l)
  }

  ghost predicate RuntimeOk(b: Broker, id: Id)
    requires id in b.runtimes
  {
    var t := b.runtimes[id];
    && t in b.launches
    && b.launches[t].pluginId == id
    && EntryOf(b, id).grants <= b.launches[t].helloGrants
    && (id in b.loose || Supervised(b, id))
  }

  /** A live process is the registered one of its plugin. */
  predicate LiveOk(b: Broker, t: Token)
    requires t in b.launches
  {
    b.launches[t].alive ==> Registered(b, t)
  }

  ghost predicate Inv(b: Broker)
  {
    && (forall t :: t in b.launches ==> LaunchOk(t, b.launches[t]))
    && (forall id :: id in b.runtimes ==> RuntimeOk(b, id))
    && (forall t :: t in b.launches ==> LiveOk(b, t))
    && b.loose <= b.runtimes.Keys
  }

  // ---------------------------------------------------------------- frames

  /** A launch may change within its protocol. */
  lemma LaunchChange(b: Broker, t: Token, l: Launch)
    requires Inv(b) && t in b.launches
    requires l.pluginId == b.launches[t].pluginId && l.helloGrants == b.launches[t].helloGrants
    requires LaunchOk(t, l)
    requires Registered(b, t) && l.pluginId !in b.loose ==> Delivered(t, l)
    requires l.alive ==> b.launches[t].alive
    ensures Inv(WithLaunch(b, t, l))
  {
    hide LaunchOk, Delivered, Approved;
    var b' := WithLaunch(b, t, l);
    forall id | id in b'.runtimes ensures RuntimeOk(b', id) {
      assert RuntimeOk(b, id);
      SameApproval(b, b', id);
    }
    forall k | k in b'.launches ensures LiveOk(b', k) {
      assert LiveOk(b, k);
    }
  }

  lemma SameApproval(b: Broker, b': Broker, id: Id)
    requires EntryOf(b', id).grants == EntryOf(b, id).grants
    requires id in b.disk ==> id in b'.disk && b'.disk[id] == b.disk[id]
    ensures Approved(b, id) ==> Approved(b', id)
  {
  }

  /** A registry record may change as long as no supervised plugin loses its consent. */
  lemma EntryChange(b: Broker, id: Id, e: Entry)
    requires Inv(b)
    requires id in b.runtimes ==> e.grants <= EntryOf(b, id).grants
    requires id in b.runtimes && id !in b.loose ==> e.enabled && e.grants == EntryOf(b, id).grants
    ensures Inv(WithEntry(b, id, e))
  {
    hide LaunchOk, Delivered, Approved;
    var b' := WithEntry(b, id, e);
    forall k | k in b'.runtimes ensures RuntimeOk(b', k) {
      assert RuntimeOk(b, k);
      if k != id || k !in b.loose {
        SameApproval(b, b', k);
      }
    }
    forall k | k in b'.launches ensures LiveOk(b', k) {
      assert LiveOk(b, k);
    }
  }

  /** A plugin may be unregistered once its process is gone. */
  lemma Unregister(b: Broker, id: Id)
    requires Inv(b)
    requires id in b.runtimes && b.runtimes[id] in b.launches ==> !b.launches[b.runtimes[id]].alive
    ensures Inv(b.(runtimes := b.runtimes - {id}, loose := b.loose - {id}))
  {
    hide LaunchOk, Delivered, Approved;
    var b' := b.(runtimes := b.runtimes - {id}, loose := b.loose - {id});
    forall k | k in b'.runtimes ensures RuntimeOk(b', k) {
      assert RuntimeOk(b, k);
      SameApproval(b, b', k);
    }
    forall k | k in b'.launches ensures LiveOk(b', k) {
      assert LiveOk(b, k);
    }
  }

  /** A plugin may be disabled without being stopped, and is then no longer supervised. */
  lemma LooseGrows(b: Broker, id: Id)
    requires Inv(b) && id in b.runtimes
    ensures Inv(b.(loose := b.loose + {id}))
  {
    hide LaunchOk, Delivered, Approved;
    var b' := b.(loose := b.loose + {id});
    forall k | k in b'.runtimes ensures RuntimeOk(b', k) {
      assert RuntimeOk(b, k);
      SameApproval(b, b', k);
    }
    forall k | k in b'.launches ensures LiveOk(b', k) {
      assert LiveOk(b, k);
    }
  }

  /** What is in the registry's file does not matter to what runs. */
  lemma SaveKeeps(b: Broker, saves: bool)
    requires Inv(b)
    ensures Inv(Save(b, saves))
  {
    hide LaunchOk, Delivered, Approved;
    var b' := Save(b, saves);
    forall k | k in b'.runtimes ensures RuntimeOk(b', k) {
      assert RuntimeOk(b, k);
      SameApproval(b, b', k);
    }
    forall k | k in b'.launches ensures LiveOk(b', k) {
      assert LiveOk(b, k);
    }
  }

  /** The plugin root may change anywhere but under a supervised plugin. */
  lemma DiskChange(b: Broker, disk: map<string, Package>)
    requires Inv(b)
    requires forall id :: id in b.runtimes && id !in b.loose && id in b.disk ==> id in disk && disk[id] == b.disk[id]
    ensures Inv(b.(disk := disk))
  {
    hide LaunchOk, Delivered, Approved;
    var b' := b.(disk := disk);
    forall k | k in b'.runtimes ensures RuntimeOk(b', k) {
      assert RuntimeOk(b, k);
      if k !in b.loose {
        SameApproval(b, b', k);
      }
    }
    forall k | k in b'.launches ensures LiveOk(b', k) {
      assert LiveOk(b, k);
    }
  }

  lemma FlagChange(b: Broker, pending: Option<Id>, stopping: bool)
    requires Inv(b)
    ensures Inv(b.(pending := pending, stopping := stopping))
  {
    hide LaunchOk, Delivered, Approved;
    var b' := b.(pending := pending, stopping := stopping);
    forall k | k in b'.runtimes ensures RuntimeOk(b', k) {
      assert RuntimeOk(b, k);
      SameApproval(b, b', k);
    }
    forall k | k in b'.launches ensures LiveOk(b', k) {
      assert LiveOk(b, k);
    }
  }

  // ---------------------------------------------------------------- the broker's own steps

  lemma AppendLogKeeps(b: Broker, t: Token, line: LogLine)
    requires Inv(b) && t in b.launches
    ensures Inv(AppendLog(b, t, line))
  {
    var l := b.launches[t];
    var l' := l.(logs := TakeLast(l.logs + [Clipped(line)], RUNTIME_LOGS));
    assert LaunchOk(t, l);
    LogsDoNotMatter(t, l, l'.logs);
    assert Registered(b, t) ==> RuntimeOk(b, l.pluginId);
    LaunchChange(b, t, l');
    var b1 := WithLaunch(b, t, l');
    assert l.pluginId in b1.runtimes ==> RuntimeOk(b1, l.pluginId);
    EntryChange(b1, l.pluginId, EntryOf(b, l.pluginId).(recentLogs := TakeLast(l'.logs, RECENT_LOGS)));
  }

  lemma LogsDoNotMatter(t: Token, l: Launch, logs: seq<LogLine>)
    requires LaunchOk(t, l)
    ensures LaunchOk(t, l.(logs := logs))
    ensures Delivered(t, l) ==> Delivered(t, l.(logs := logs))
  {
  }

  /** The process ends, whether or not the broker asked for it. */
  lemma DeathOk(t: Token, l: Launch, status: Status)
    requires LaunchOk(t, l) && (status == Running ==> l.status == Running)
    ensures LaunchOk(t, l.(alive := false, status := status))
    ensures Delivered(t, l) ==> Delivered(t, l.(alive := false, status := status))
  {
  }

  /** A line other than a hello is sent to the plugin. */
  lemma SendOk(t: Token, l: Launch, m: HostMessage)
    requires LaunchOk(t, l)
    requires m.token == t && !m.Hello? && (m.Sample? ==> "telemetry.read" in l.helloGrants)
    ensures LaunchOk(t, Sent(l, m))
    ensures Delivered(t, l) ==> Delivered(t, Sent(l, m))
  {
    var pipe := l.toPlugin + [m];
    forall i | 0 <= i < |pipe| ensures HostLineOk(t, pipe, i, l.sdk.greeted, l.helloGrants) {
      assert i < |l.toPlugin| ==> HostLineOk(t, l.toPlugin, i, l.sdk.greeted, l.helloGrants);
    }
  }

  lemma StopKeeps(b: Broker, id: Id)
    requires Inv(b)
    ensures Inv(StopPlugin(b, id)) && id !in StopPlugin(b, id).runtimes
  {
    if id in b.runtimes {
      hide LaunchOk, Delivered, Approved;
      var t := b.runtimes[id];
      assert RuntimeOk(b, id);
      var l := b.launches[t];
      SendOk(t, l, Shutdown(t));
      DeathOk(t, Sent(l, Shutdown(t)), Stopped);
      var stopped := Sent(l, Shutdown(t)).(alive := false, status := Stopped);
      LaunchChange(b, t, stopped);
      Unregister(WithLaunch(b, t, stopped), id);
    }
  }

  lemma LaunchKeeps(b: Broker, id: Id, t: Token, spawn: Spawn)
    requires Inv(b) && t !in b.launches
    ensures Inv(LaunchPlugin(b, id, t, spawn).0)
  {
    var b' := LaunchPlugin(b, id, t, spawn).0;
    if b' != b {
      hide Approved;
      var l := NewLaunch(b, id, t, spawn);
      NewLaunchOk(b, id, t, spawn);
      hide LaunchOk, Delivered, LiveOk;
      forall k | k in b'.runtimes ensures RuntimeOk(b', k) {
        assert k != id ==> k in b.runtimes && RuntimeOk(b, k);
        SameApproval(b, b', k);
      }
      forall k | k in b'.launches ensures LiveOk(b', k) {
        LaunchKeepsLive(b, id, t, spawn, k);
      }
    }
  }

  lemma LaunchKeepsLive(b: Broker, id: Id, t: Token, spawn: Spawn, k: Token)
    requires Inv(b) && t !in b.launches && k in LaunchPlugin(b, id, t, spawn).0.launches
    ensures LiveOk(LaunchPlugin(b, id, t, spawn).0, k)
  {
    assert k in b.launches ==> LiveOk(b, k);
    hide Inv, Approved, ManifestFor, EntryOf;
  }

  lemma NewLaunchOk(b: Broker, id: Id, t: Token, spawn: Spawn)
    ensures LaunchOk(t, NewLaunch(b, id, t, spawn)) && Delivered(t, NewLaunch(b, id, t, spawn))
  {
  }

  lemma SetGrantsKeeps(b: Broker, id: Id, grants: set<string>, saves: bool)
    requires Inv(b)
    ensures Inv(SetGrants(b, id, grants, saves).0)
  {
    hide Inv;
    StopKeeps(b, id);
    var e := EntryOf(b, id).(grants := grants, enabled := false);
    EntryChange(StopPlugin(b, id), id, e);
    SaveKeeps(WithEntry(StopPlugin(b, id), id, e), saves);
  }

  lemma EnableKeeps(b: Broker, id: Id, saves: bool, t: Token, spawn: Spawn)
    requires Inv(b) && t !in b.launches
    ensures Inv(SetEnabled(b, id, true, saves, t, spawn).0)
  {
    assert id in b.runtimes ==> RuntimeOk(b, id);
    EntryChange(b, id, EntryOf(b, id).(enabled := true, restartCount := 0));
    hide Inv;
    SaveKeeps(Marked(b, id, true), true);
    LaunchKeeps(Save(Marked(b, id, true), true), id, t, spawn);
  }

  lemma DisableKeeps(b: Broker, id: Id, saves: bool, t: Token, spawn: Spawn)
    requires Inv(b)
    ensures Inv(SetEnabled(b, id, false, saves, t, spawn).0)
  {
    var e := EntryOf(b, id).(enabled := false);
    hide Inv;
    if saves {
      StopKeeps(b, id);
      EntryChange(StopPlugin(b, id), id, e);
      SaveKeeps(WithEntry(StopPlugin(b, id), id, e), true);
      StopAndSave(b, id, e);
    } else if id in b.runtimes {
      LooseGrows(b, id);
      EntryChange(b.(loose := b.loose + {id}), id, e);
    } else {
      EntryChange(b, id, e);
    }
  }

  lemma StopAndSave(b: Broker, id: Id, e: Entry)
    ensures StopPlugin(Save(WithEntry(b, id, e), true), id) == Save(WithEntry(StopPlugin(b, id), id, e), true)
  {
    hide EntryOf, Sent;
    if id in b.runtimes {
      var t := b.runtimes[id];
      assert t in b.launches ==> Save(WithEntry(b, id, e), true).launches[t] == b.launches[t];
    }
  }

  lemma SetEnabledKeeps(b: Broker, id: Id, enabled: bool, saves: bool, t: Token, spawn: Spawn)
    requires Inv(b) && t !in b.launches
    ensures Inv(SetEnabled(b, id, enabled, saves, t, spawn).0)
  {
    hide Inv, SetEnabled;
    if enabled {
      EnableKeeps(b, id, saves, t, spawn);
    } else {
      DisableKeeps(b, id, saves, t, spawn);
    }
  }

  lemma PrivateNames(id: Id, suffix: string)
    ensures !ValidId(StagingName(id, suffix)) && !ValidId(BackupName(id, suffix))
  {
    assert StagingName(id, suffix)[0] == '.' && BackupName(id, suffix)[0] == '.';
  }

  lemma RuntimeIdValid(b: Broker, id: Id)
    requires Inv(b) && id in b.runtimes && id !in b.loose
    ensures ValidId(id) && id in b.disk && EntryOf(b, id).enabled
  {
    assert RuntimeOk(b, id);
  }

  /** A swap leaves every directory but the package's own and the private ones alone. */
  lemma SwapTouches(disk: map<string, Package>, id: Id, pkg: Package, suffix: string, fault: Fault, k: Id)
    requires ValidId(k) && k != id
    ensures var after := Swap(disk, id, pkg, suffix, fault).0;
      (k in after <==> k in disk) && (k in disk ==> after[k] == disk[k])
  {
    PrivateNames(id, suffix);
  }

  lemma InstallKeeps(b: Broker, dirName: string, pkg: Package, suffix: string, fault: Fault, saves: bool)
    requires Inv(b)
    ensures Inv(InstallArchive(b, dirName, pkg, suffix, fault, saves).0)
  {
    hide Inv, Swap, EntryOf, ReadManifest, ValidId;
    var m := ReadManifest(dirName, pkg);
    if m.Some? && !(m.value.id in b.disk && EntryOf(b, m.value.id).enabled) {
      var id := m.value.id;
      var (disk, ok) := Swap(b.disk, id, pkg, suffix, fault);
      assert id in b.runtimes ==> id in b.loose by {
        if id in b.runtimes && id !in b.loose { RuntimeIdValid(b, id); }
      }
      forall k | k in b.runtimes && k !in b.loose ensures k in disk && k in b.disk && disk[k] == b.disk[k] {
        RuntimeIdValid(b, k);
        SwapTouches(b.disk, id, pkg, suffix, fault, k);
      }
      DiskChange(b, disk);
      if ok {
        RecordInstalled(b.(disk := disk), id, saves);
      }
    }
  }

  lemma RecordInstalled(b: Broker, id: Id, saves: bool)
    requires Inv(b)
    ensures Inv(Save(WithEntry(b, id, EntryOf(b, id).(bundled := false)), saves))
  {
    assert id in b.runtimes ==> RuntimeOk(b, id);
    var e := EntryOf(b, id).(bundled := false);
    EntryChange(b, id, e);
    hide Inv;
    SaveKeeps(WithEntry(b, id, e), saves);
  }

  lemma BundledKeeps(b: Broker, name: Id, pkg: Package, copied: bool, saves: bool)
    requires Inv(b)
    ensures Inv(InstallBundled(b, name, pkg, copied, saves))
  {
    var b1 := if name in b.disk then b else b.(disk := b.disk[name := pkg]);
    if name !in b.disk {
      DiskChange(b, b.disk[name := pkg]);
    }
    assert name in b1.runtimes ==> RuntimeOk(b1, name);
    var e := EntryOf(b, name).(bundled := true);
    EntryChange(b1, name, e);
    hide Inv;
    SaveKeeps(WithEntry(b1, name, e), saves);
  }

  /** A record may go once its plugin is not supervised. */
  lemma EntryGoes(b: Broker, id: Id)
    requires Inv(b) && (id in b.runtimes ==> id in b.loose)
    ensures Inv(b.(registry := b.registry - {id}))
  {
    hide LaunchOk, Delivered, Approved;
    var b' := b.(registry := b.registry - {id});
    forall k | k in b'.runtimes ensures RuntimeOk(b', k) {
      assert RuntimeOk(b, k);
      if k != id {
        SameApproval(b, b', k);
      }
    }
    forall k | k in b'.launches ensures LiveOk(b', k) {
      assert LiveOk(b, k);
    }
  }

  lemma RemoveKeeps(b: Broker, id: Id, left: Option<Package>, saves: bool)
    requires Inv(b)
    ensures Inv(RemovePlugin(b, id, left, saves).0)
  {
    hide Inv, ManifestFor;
    if ManifestFor(b, id).Some? && !EntryOf(b, id).bundled && !EntryOf(b, id).enabled {
      assert id in b.runtimes ==> id in b.loose by {
        if id in b.runtimes && id !in b.loose { RuntimeIdValid(b, id); }
      }
      if left.Some? {
        DiskChange(b, b.disk[id := left.value]);
      } else {
        DiskChange(b, b.disk - {id});
        EntryGoes(b.(disk := b.disk - {id}), id);
        SaveKeeps(b.(disk := b.disk - {id}, registry := b.registry - {id}), saves);
      }
    }
  }

  lemma SystemLogKeeps(b: Broker, id: Id, line: LogLine, saves: bool)
    requires Inv(b)
    ensures Inv(Logged(b, id, line, saves))
  {
    assert id in b.runtimes ==> RuntimeOk(b, id);
    var e := EntryOf(b, id).(recentLogs := TakeLast(EntryOf(b, id).recentLogs + [line], RECENT_LOGS));
    EntryChange(b, id, e);
    hide Inv;
    SaveKeeps(WithEntry(b, id, e), saves);
  }

  lemma LogsRegisterNothing(b: Broker, id: Id, line: LogLine, saves: bool)
    ensures var after := Logged(b, id, line, saves);
      after.runtimes == b.runtimes && after.loose == b.loose && after.launches == b.launches
      && after.stopping == b.stopping && after.pending == b.pending
  {
  }

  lemma ExitKeeps(b: Broker, t: Token, logSaves: bool, countSaves: bool)
    requires Inv(b) && t in b.launches && !b.launches[t].alive
    ensures Inv(HandleExit(b, t, logSaves, countSaves).0)
  {
    hide Inv, EntryOf, Logged;
    if Registered(b, t) {
      var id := b.launches[t].pluginId;
      var b0 := b.(runtimes := b.runtimes - {id}, loose := b.loose - {id});
      Unregister(b, id);
      SystemLogKeeps(b0, id, EXIT_LINE, logSaves);
      var b1 := Logged(b0, id, EXIT_LINE, logSaves);
      LogsRegisterNothing(b0, id, EXIT_LINE, logSaves);
      var e := EntryOf(b1, id).(restartCount := EntryOf(b1, id).restartCount + 1);
      EntryChange(b1, id, e);
      SaveKeeps(WithEntry(b1, id, e), countSaves);
      FlagChange(Save(WithEntry(b1, id, e), countSaves), Some(id), b.stopping);
    }
  }

  lemma ProgramRestartKeeps(b: Broker)
    requires Inv(b)
    ensures Inv(RestartProgram(b))
  {
    var b' := RestartProgram(b);
    forall t | t in b'.launches ensures LaunchOk(t, b'.launches[t]) && LiveOk(b', t) {
      assert LaunchOk(t, b.launches[t]);
    }
  }

  // ---------------------------------------------------------------- the pipes

  lemma {:induction false} EventsJoin(t: Token, a: seq<PluginMessage>, c: seq<PluginMessage>)
    ensures EventsIn(t, a + c) == EventsIn(t, a) + EventsIn(t, c)
  {
    hide EventTexts;
    if a == [] {
      assert a + c == c;
    } else {
      EventsJoin(t, a[1..], c);
      assert (a + c)[1..] == a[1..] + c;
      assert EventsIn(t, a + c) == EventTexts(t, a[0]) + (EventsIn(t, a[1..]) + EventsIn(t, c));
    }
  }

  lemma {:induction false} NoEvents(t: Token, out: seq<PluginMessage>)
    requires forall m :: m in out ==> !Authentic(t, m) || !m.EventMessage?
    ensures EventsIn(t, out) == []
  {
    if out != [] {
      assert out[0] in out;
      NoEvents(t, out[1..]);
    }
  }

  lemma HostPipeRest(t: Token, pipe: seq<HostMessage>, greeted: bool, grants: set<string>)
    requires pipe != [] && HostPipeOk(t, pipe, greeted, grants)
    ensures HostPipeOk(t, pipe[1..], greeted || pipe[0].Hello?, grants)
  {
    var rest, after := pipe[1..], greeted || pipe[0].Hello?;
    forall i | 0 <= i < |rest| ensures HostLineOk(t, rest, i, after, grants) {
      assert HostLineOk(t, pipe, i + 1, greeted, grants);
    }
  }

  lemma HostPipeKept(t: Token, pipe: seq<HostMessage>, grants: set<string>)
    requires pipe != [] && HostPipeOk(t, pipe, false, grants)
    ensures HostPipeOk(t, pipe[1..], false, grants)
  {
    var rest := pipe[1..];
    forall i | 0 <= i < |rest| ensures HostLineOk(t, rest, i, false, grants) {
      assert HostLineOk(t, pipe, i + 1, false, grants);
    }
  }

  /** The SDK handles one line. */
  lemma ReadOk(t: Token, l: Launch, now: real)
    requires LaunchOk(t, l) && l.toPlugin != []
    ensures var (sdk, out) := SdkRead(l.sdk, l.toPlugin[0], now);
      var l' := l.(sdk := sdk, toPlugin := l.toPlugin[1..], toHost := l.toHost + out,
                   orderly := l.orderly && (sdk.greeted || out == []));
      LaunchOk(t, l') && (Delivered(t, l) ==> Delivered(t, l'))
  {
    var (sdk, out) := SdkRead(l.sdk, l.toPlugin[0], now);
    assert HostLineOk(t, l.toPlugin, 0, l.sdk.greeted, l.helloGrants);
    HostPipeRest(t, l.toPlugin, l.sdk.greeted, l.helloGrants);
    assert out == [] ==> l.toHost + out == l.toHost;
    hide HostPipeOk, NoStatusLine;
    EventsJoin(t, l.toHost, out);
    NoEvents(t, out);
    hide EventsIn;
  }

  /** The process takes a line by itself. */
  lemma TakenOk(t: Token, l: Launch)
    requires LaunchOk(t, l) && l.toPlugin != []
    ensures LaunchOk(t, l.(toPlugin := l.toPlugin[1..]))
    ensures Delivered(t, l) ==> Delivered(t, l.(toPlugin := l.toPlugin[1..]))
  {
    if l.sdk.greeted {
      HostPipeRest(t, l.toPlugin, true, l.helloGrants);
    } else {
      HostPipeKept(t, l.toPlugin, l.helloGrants);
    }
    hide HostPipeOk;
  }

  /** The process writes a line by itself, whatever it is. */
  lemma WrittenOk(t: Token, l: Launch, m: PluginMessage)
    requires LaunchOk(t, l)
    ensures var l' := l.(toHost := l.toHost + [m], orderly := l.orderly && (l.sdk.greeted || !StatusLine(t, m)),
                         published := l.published + EventTexts(t, m));
      LaunchOk(t, l') && (Delivered(t, l) ==> Delivered(t, l'))
  {
    var l' := l.(toHost := l.toHost + [m], orderly := l.orderly && (l.sdk.greeted || !StatusLine(t, m)),
                 published := l.published + EventTexts(t, m));
    assert LaunchOk(t, l') by {
      hide HostPipeOk, EventTexts, StatusLine;
    }
    hide LaunchOk, Delivered;
    WrittenDelivers(t, l, m, l');
  }

  lemma WrittenDelivers(t: Token, l: Launch, m: PluginMessage, l': Launch)
    requires l'.toHost == l.toHost + [m] && l'.accepted == l.accepted && l'.helloGrants == l.helloGrants
    requires l'.published == l.published + EventTexts(t, m)
    ensures Delivered(t, l) ==> Delivered(t, l')
  {
    hide EventTexts, EventsIn;
    EventsJoin(t, l.toHost, [m]);
    EventsInOne(t, m);
    assert (l.accepted + EventsIn(t, l.toHost)) + EventTexts(t, m)
        == l.accepted + (EventsIn(t, l.toHost) + EventTexts(t, m));
  }

  lemma EventsInOne(t: Token, m: PluginMessage)
    ensures EventsIn(t, [m]) == EventTexts(t, m)
  {
  }

  /** The broker takes one line off the pipe. */
  lemma TakeOk(t: Token, l: Launch)
    requires LaunchOk(t, l) && l.toHost != []
    ensures LaunchOk(t, l.(toHost := l.toHost[1..]))
  {
    hide HostPipeOk;
  }

  lemma NoteOk(t: Token, l: Launch, status: Status, accepted: seq<string>)
    requires LaunchOk(t, l) && (status == l.status || (l.orderly ==> l.sdk.greeted))
    ensures LaunchOk(t, l.(status := status, accepted := accepted))
  {
  }

  /** The line taken was an event and is accepted under the grant; or it is passed over. */
  lemma TakeDelivers(t: Token, l: Launch, status: Status)
    requires l.toHost != []
    ensures var event := Authentic(t, l.toHost[0]) && l.toHost[0].EventMessage? && "events.publish" in l.helloGrants;
      var accepted := if event then l.accepted + [l.toHost[0].text] else l.accepted;
      Delivered(t, l) ==> Delivered(t, l.(toHost := l.toHost[1..], status := status, accepted := accepted))
  {
    if Authentic(t, l.toHost[0]) && l.toHost[0].EventMessage? {
      assert l.accepted + ([l.toHost[0].text] + EventsIn(t, l.toHost[1..]))
          == (l.accepted + [l.toHost[0].text]) + EventsIn(t, l.toHost[1..]);
    } else {
      assert EventsIn(t, l.toHost) == EventsIn(t, l.toHost[1..]);
    }
  }

  /** Taking a line keeps the protocol; with the grants the registry shares, events go where they belong. */
  lemma TakeLineOk(t: Token, l: Launch, eventsGranted: bool)
    requires LaunchOk(t, l) && l.toHost != []
    ensures LaunchOk(t, TakeLine(l, t, eventsGranted).0)
    ensures Delivered(t, l) && (eventsGranted <==> "events.publish" in l.helloGrants)
            ==> Delivered(t, TakeLine(l, t, eventsGranted).0)
  {
    var m := l.toHost[0];
    assert StatusLine(t, m) && l.orderly ==> l.sdk.greeted;
    TakeOk(t, l);
    hide LaunchOk, Delivered;
    if Authentic(t, m) && m.EventMessage? {
      NoteOk(t, l.(toHost := l.toHost[1..]), l.status, l.accepted + [m.text]);
      TakeDelivers(t, l, l.status);
    } else if StatusLine(t, m) {
      NoteOk(t, l.(toHost := l.toHost[1..]), Running, l.accepted);
      TakeDelivers(t, l, Running);
    } else {
      TakeDelivers(t, l, l.status);
    }
  }

  lemma TakeLineIdentity(l: Launch, t: Token, eventsGranted: bool)
    requires l.toHost != []
    ensures TakeLine(l, t, eventsGranted).0.pluginId == l.pluginId
    ensures TakeLine(l, t, eventsGranted).0.helloGrants == l.helloGrants
    ensures TakeLine(l, t, eventsGranted).0.alive == l.alive
  {
  }

  lemma ReadStdoutKeeps(b: Broker, t: Token)
    requires Inv(b)
    ensures Inv(ReadStdout(b, t))
  {
    if t in b.launches && b.launches[t].toHost != [] {
      hide LaunchOk, Delivered, TakeLine, AppendLog, Approved;
      var l := b.launches[t];
      var granted := "events.publish" in EntryOf(b, l.pluginId).grants;
      assert LaunchOk(t, l);
      assert Registered(b, t) ==> RuntimeOk(b, l.pluginId);
      TakeLineOk(t, l, granted);
      TakeLineIdentity(l, t, granted);
      var (l', line) := TakeLine(l, t, granted);
      hide Inv, RuntimeOk, EntryOf;
      LaunchChange(b, t, l');
      if line.Some? {
        AppendLogKeeps(WithLaunch(b, t, l'), t, line.value);
      }
    }
  }

  lemma SendSampleKeeps(b: Broker, t: Token)
    requires Inv(b)
    ensures Inv(SendSample(b, t))
  {
    if SendSample(b, t) != b {
      var l := b.launches[t];
      assert LaunchOk(t, l) && RuntimeOk(b, l.pluginId);
      SendOk(t, l, Sample(t));
      hide Inv, LaunchOk, Delivered;
      LaunchChange(b, t, Sent(l, Sample(t)));
    }
  }

  lemma MarkKeeps(b: Broker, t: Token)
    requires Inv(b)
    ensures Inv(MarkUnresponsive(b, t))
  {
    if MarkUnresponsive(b, t) != b {
      var l := b.launches[t];
      assert LaunchOk(t, l) && RuntimeOk(b, l.pluginId);
      UnresponsiveOk(t, l);
      hide Inv, LaunchOk;
      LaunchChange(b, t, l.(status := Unresponsive));
    }
  }

  lemma UnresponsiveOk(t: Token, l: Launch)
    requires LaunchOk(t, l)
    ensures LaunchOk(t, l.(status := Unresponsive))
  {
  }

  /** One turn of the monitor for a live runtime. */
  lemma AttendKeeps(b: Broker, t: Token)
    requires Inv(b)
    ensures Inv(SendSample(b, t)) && Inv(MarkUnresponsive(SendSample(b, t), t))
  {
    SendSampleKeeps(b, t);
    MarkKeeps(SendSample(b, t), t);
  }

  lemma RestartKeeps(b: Broker, id: Id, t: Token, spawn: Spawn)
    requires Inv(b) && t !in b.launches
    ensures Inv(Restart(b, id, t, spawn).0)
  {
    StopKeeps(b, id);
    StopKeepsTokens(b, id);
    LaunchKeeps(StopPlugin(b, id), id, t, spawn);
  }

  lemma RelaunchKeeps(b: Broker, t: Token, spawn: Spawn)
    requires Inv(b) && t !in b.launches
    ensures Inv(Relaunch(b, t, spawn))
  {
    if b.pending.Some? {
      FlagChange(b, None, b.stopping);
      hide Inv;
      LaunchKeeps(b.(pending := None), b.pending.value, t, spawn);
    }
  }

  lemma PluginReadsKeeps(b: Broker, t: Token, now: real)
    requires Inv(b)
    ensures Inv(PluginReads(b, t, now))
  {
    if PluginReads(b, t, now) != b {
      var l := b.launches[t];
      assert LaunchOk(t, l);
      assert Registered(b, t) ==> RuntimeOk(b, l.pluginId);
      ReadOk(t, l, now);
      var (sdk, out) := SdkRead(l.sdk, l.toPlugin[0], now);
      hide Inv, LaunchOk, Delivered, SdkRead;
      LaunchChange(b, t, l.(sdk := sdk, toPlugin := l.toPlugin[1..], toHost := l.toHost + out,
                            orderly := l.orderly && (sdk.greeted || out == [])));
    }
  }

  lemma PluginPublishesKeeps(b: Broker, t: Token, text: string)
    requires Inv(b)
    ensures Inv(PluginPublishes(b, t, text))
  {
    if PluginPublishes(b, t, text) != b {
      var l := b.launches[t];
      assert LaunchOk(t, l);
      assert Registered(b, t) ==> RuntimeOk(b, l.pluginId);
      WrittenOk(t, l, EventMessage(t, text));
      hide Inv, LaunchOk, Delivered;
      LaunchChange(b, t, l.(toHost := l.toHost + SdkPublish(l.sdk, text), published := l.published + [text]));
    }
  }

  lemma PluginPrintsKeeps(b: Broker, t: Token, m: PluginMessage)
    requires Inv(b)
    ensures Inv(PluginPrints(b, t, m))
  {
    if t in b.launches && b.launches[t].alive {
      var l := b.launches[t];
      assert LaunchOk(t, l);
      assert Registered(b, t) ==> RuntimeOk(b, l.pluginId);
      WrittenOk(t, l, m);
      hide Inv, LaunchOk, Delivered;
      LaunchChange(b, t, PluginPrints(b, t, m).launches[t]);
    }
  }

  lemma PluginTakesKeeps(b: Broker, t: Token)
    requires Inv(b)
    ensures Inv(PluginTakes(b, t))
  {
    if PluginTakes(b, t) != b {
      var l := b.launches[t];
      assert LaunchOk(t, l);
      assert Registered(b, t) ==> RuntimeOk(b, l.pluginId);
      TakenOk(t, l);
      hide Inv, LaunchOk, Delivered;
      LaunchChange(b, t, l.(toPlugin := l.toPlugin[1..]));
    }
  }

  lemma ClosesKeeps(b: Broker, t: Token)
    requires Inv(b)
    ensures Inv(ClosesItsInput(b, t))
  {
    if t in b.launches {
      var l := b.launches[t];
      assert LaunchOk(t, l);
      assert Registered(b, t) ==> RuntimeOk(b, l.pluginId);
      DeafOk(t, l);
      hide Inv, LaunchOk, Delivered;
      LaunchChange(b, t, l.(listening := false));
    }
  }

  lemma DeafOk(t: Token, l: Launch)
    requires LaunchOk(t, l)
    ensures LaunchOk(t, l.(listening := false))
    ensures Delivered(t, l) ==> Delivered(t, l.(listening := false))
  {
  }

  // ---------------------------------------------------------------- whole runs

  /** Every step keeps the invariant, whatever the broker and the event. */
  lemma StepKeeps(b: Broker, e: Event)
    requires Inv(b)
    ensures Inv(Step(b, e))
  {
    hide Inv, SetGrants, SetEnabled, LaunchPlugin, StopPlugin, InstallArchive, InstallBundled, RemovePlugin, HandleExit;
    hide SendSample, MarkUnresponsive, ReadStdout, PluginReads, PluginPublishes, PluginPrints;
    hide PluginTakes, ClosesItsInput, ProcessDies, Logged, RestartProgram, Relaunch, Restart;
    if Possible(b, e) {
      match e {
        case SetGrantsCalled(id, grants, saves) => SetGrantsKeeps(b, id, grants, saves);
        case SetEnabledCalled(id, enabled, saves, t, spawn) => SetEnabledKeeps(b, id, enabled, saves, t, spawn);
        case RestartCalled(id, t, spawn) => RestartKeeps(b, id, t, spawn);
        case LaunchCalled(id, t, spawn) => LaunchKeeps(b, id, t, spawn);
        case StopCalled(id) => StopKeeps(b, id);
        case InstallCalled(name, pkg, suffix, fault, saves) => InstallKeeps(b, name, pkg, suffix, fault, saves);
        case BundledFound(name, pkg, copied, saves) => BundledKeeps(b, name, pkg, copied, saves);
        case RemoveCalled(id, left, saves) => RemoveKeeps(b, id, left, saves);
        case SystemLogged(id, line, saves) => SystemLogKeeps(b, id, line, saves);
        case ProgramRestarts => ProgramRestartKeeps(b);
        case StoppingSet(flag) => FlagChange(b, b.pending, flag);
        case ExitSeen(t, logSaves, countSaves) => ExitKeeps(b, t, logSaves, countSaves);
        case RelaunchDue(t, spawn) => RelaunchKeeps(b, t, spawn);
        case SampleSent(t) => SendSampleKeeps(b, t);
        case HeartbeatLate(t) => MarkKeeps(b, t);
        case LineFromPlugin(t) => ReadStdoutKeeps(b, t);
        case PluginReadsLine(t, now) => PluginReadsKeeps(b, t, now);
        case PluginPublishesEvent(t, text) => PluginPublishesKeeps(b, t, text);
        case PluginPrintsLine(t, m) => PluginPrintsKeeps(b, t, m);
        case PluginTakesLine(t) => PluginTakesKeeps(b, t);
        case InputCloses(t) => ClosesKeeps(b, t);
        case ProcessEnds(t) => DiesKeeps(b, t);
      }
    }
  }

  lemma StopKeepsTokens(b: Broker, id: Id)
    ensures StopPlugin(b, id).launches.Keys == b.launches.Keys
  {
  }

  lemma DiesKeeps(b: Broker, t: Token)
    requires Inv(b)
    ensures Inv(ProcessDies(b, t))
  {
    if t in b.launches {
      var l := b.launches[t];
      assert LaunchOk(t, l);
      assert Registered(b, t) ==> RuntimeOk(b, l.pluginId);
      DeathOk(t, l, l.status);
      hide Inv, LaunchOk, Delivered;
      LaunchChange(b, t, l.(alive := false));
    }
  }

  lemma {:induction false} RunKeeps(b: Broker, es: seq<Event>)
    requires Inv(b)
    ensures Inv(Run(b, es))
  {
    hide Inv, Step;
    if es != [] {
      RunKeeps(b, es[..|es| - 1]);
      StepKeeps(Run(b, es[..|es| - 1]), es[|es| - 1]);
    }
  }

  /**
   In every state any run can reach, a registered plugin has a launch of its own whose hello carried every
   grant the registry holds now. Unless it has been disabled without being stopped, its directory is there
   with a readable manifest, it is enabled, every capability it asks for is granted, and its hello carried
   exactly the registry's grants.
   */
  lemma RegisteredMeansApproved(b0: Broker, es: seq<Event>, id: Id)
    requires Fresh(b0)
    requires id in Run(b0, es).runtimes
    ensures var b := Run(b0, es);
      && b.runtimes[id] in b.launches
      && b.launches[b.runtimes[id]].pluginId == id
      && EntryOf(b, id).grants <= b.launches[b.runtimes[id]].helloGrants
      && (id !in b.loose ==>
            && id in b.disk && ManifestFor(b, id).Some?
            && EntryOf(b, id).enabled
            && ManifestFor(b, id).value.capabilities <= EntryOf(b, id).grants
            && b.launches[b.runtimes[id]].helloGrants == EntryOf(b, id).grants)
  {
    FreshInv(b0);
    RunKeeps(b0, es);
    hide Run, LaunchOk;
    assert RuntimeOk(Run(b0, es), id);
  }

  /**
   In every reachable state a live process is the registered launch of its plugin, so no plugin ever has
   two live processes. Unless it has been disabled without being stopped, its plugin is enabled with every
   capability granted.
   */
  lemma LiveMeansRegistered(b0: Broker, es: seq<Event>, t: Token)
    requires Fresh(b0)
    requires t in Run(b0, es).launches && Run(b0, es).launches[t].alive
    ensures var b := Run(b0, es);
      var id := b.launches[t].pluginId;
      && Registered(b, t)
      && (forall u :: u in b.launches && b.launches[u].alive && b.launches[u].pluginId == id ==> u == t)
      && (id !in b.loose ==>
            EntryOf(b, id).enabled && Approved(b, id) && b.launches[t].helloGrants == EntryOf(b, id).grants)
  {
    FreshInv(b0);
    RunKeeps(b0, es);
    hide Run, LaunchOk;
    var b := Run(b0, es);
    assert LiveOk(b, t) && RuntimeOk(b, b.launches[t].pluginId);
    assert forall u :: u in b.launches ==> LiveOk(b, u);
  }

  /** In every reachable state, telemetry is on its way only to launches whose hello carries the grant. */
  lemma SamplesOnlyWhenGranted(b0: Broker, es: seq<Event>, t: Token, i: nat)
    requires Fresh(b0)
    requires t in Run(b0, es).launches && i < |Run(b0, es).launches[t].toPlugin|
    requires Run(b0, es).launches[t].toPlugin[i].Sample?
    ensures "telemetry.read" in Run(b0, es).launches[t].helloGrants
  {
    FreshInv(b0);
    RunKeeps(b0, es);
    hide Run;
    var b := Run(b0, es);
    assert LaunchOk(t, b.launches[t]);
    var l := b.launches[t];
    assert HostLineOk(t, l.toPlugin, i, l.sdk.greeted, l.helloGrants);
  }

  // ---------------------------------------------------------------- events of any process

  /** Launch t is still there and has taken in the same events. */
  predicate SameAccepted(b: Broker, b': Broker, t: Token)
  {
    t in b.launches ==> t in b'.launches && b'.launches[t].accepted == b.launches[t].accepted
  }

  lemma StopAccepts(b: Broker, id: Id, t: Token)
    ensures SameAccepted(b, StopPlugin(b, id), t)
  {
  }

  lemma LaunchAccepts(b: Broker, id: Id, u: Token, spawn: Spawn, t: Token)
    requires u !in b.launches
    ensures SameAccepted(b, LaunchPlugin(b, id, u, spawn).0, t)
  {
    hide ManifestFor, Approved;
  }

  predicate ByLaunching(e: Event)
  {
    e.SetEnabledCalled? || e.RestartCalled? || e.LaunchCalled? || e.RelaunchDue?
  }

  lemma LaunchingAccepts(b: Broker, e: Event, t: Token)
    requires ByLaunching(e)
    ensures SameAccepted(b, Step(b, e), t)
  {
    hide ManifestFor, Approved, LaunchPlugin, StopPlugin, SameAccepted;
    if Possible(b, e) {
      match e {
        case SetEnabledCalled(id, enabled, saves, u, spawn) => SetEnabledAccepts(b, id, enabled, saves, u, spawn, t);
        case RestartCalled(id, u, spawn) =>
          StopAccepts(b, id, t);
          StopKeepsTokens(b, id);
          LaunchAccepts(StopPlugin(b, id), id, u, spawn, t);
          SameAcceptedJoin(b, StopPlugin(b, id), LaunchPlugin(StopPlugin(b, id), id, u, spawn).0, t);
        case LaunchCalled(id, u, spawn) => LaunchAccepts(b, id, u, spawn, t);
        case RelaunchDue(u, spawn) => RelaunchAccepts(b, u, spawn, t);
      }
    } else {
      NothingAccepts(b, t);
    }
  }

  lemma NothingAccepts(b: Broker, t: Token)
    ensures SameAccepted(b, b, t)
  {
  }

  lemma SameAcceptedJoin(b: Broker, b': Broker, b'': Broker, t: Token)
    requires SameAccepted(b, b', t) && SameAccepted(b', b'', t)
    ensures SameAccepted(b, b'', t)
  {
  }

  lemma SetEnabledAccepts(b: Broker, id: Id, enabled: bool, saves: bool, u: Token, spawn: Spawn, t: Token)
    requires u !in b.launches
    ensures SameAccepted(b, SetEnabled(b, id, enabled, saves, u, spawn).0, t)
  {
    hide ManifestFor, Approved, LaunchPlugin, StopPlugin;
    LaunchAccepts(Recorded(b, id, true), id, u, spawn, t);
    StopAccepts(Recorded(b, id, false), id, t);
  }

  /** The broker once an enable or disable has changed the record and saved it. */
  function Recorded(b: Broker, id: Id, enabled: bool): Broker
  {
    Save(Marked(b, id, enabled), true)
  }

  lemma RelaunchAccepts(b: Broker, u: Token, spawn: Spawn, t: Token)
    requires u !in b.launches
    ensures SameAccepted(b, Relaunch(b, u, spawn), t)
  {
    hide LaunchPlugin;
    if b.pending.Some? {
      LaunchAccepts(b.(pending := None), b.pending.value, u, spawn, t);
    }
  }

  predicate OnProcess(e: Event)
  {
    e.PluginReadsLine? || e.PluginPublishesEvent? || e.PluginPrintsLine? || e.PluginTakesLine? || e.InputCloses?
    || e.ProcessEnds?
  }

  /** What a process does by itself leaves what the broker took in alone, and its order unless it writes. */
  predicate LeavesAlone(b: Broker, b': Broker, t: Token, writes: bool)
  {
    && b'.launches.Keys == b.launches.Keys
    && (t in b.launches ==>
          && b'.launches[t].accepted == b.launches[t].accepted
          && (!writes ==> b'.launches[t].orderly == b.launches[t].orderly))
  }

  lemma ReadsAlone(b: Broker, u: Token, now: real, t: Token)
    ensures LeavesAlone(b, PluginReads(b, u, now), t, true)
  {
    hide SdkRead;
  }

  lemma PrintsAlone(b: Broker, u: Token, m: PluginMessage, t: Token)
    ensures LeavesAlone(b, PluginPrints(b, u, m), t, true)
  {
    hide StatusLine, Authentic;
  }

  lemma PublishesAlone(b: Broker, u: Token, text: string, t: Token)
    ensures LeavesAlone(b, PluginPublishes(b, u, text), t, false)
  {
    hide SdkPublish;
  }

  lemma TakesAlone(b: Broker, u: Token, t: Token)
    ensures LeavesAlone(b, PluginTakes(b, u), t, false)
  {
  }

  lemma EndsAlone(b: Broker, u: Token, t: Token)
    ensures LeavesAlone(b, ClosesItsInput(b, u), t, false) && LeavesAlone(b, ProcessDies(b, u), t, false)
  {
  }

  lemma ProcessAlone(b: Broker, e: Event, t: Token)
    requires OnProcess(e)
    ensures LeavesAlone(b, Step(b, e), t, e.PluginReadsLine? || e.PluginPrintsLine?)
  {
    hide LeavesAlone;
    hide SetGrants, SetEnabled, Restart, LaunchPlugin, StopPlugin, Relaunch, RestartProgram;
    hide InstallArchive, InstallBundled, RemovePlugin, Logged, HandleExit;
    hide SendSample, MarkUnresponsive, ReadStdout, PluginReads, PluginPublishes, PluginPrints, PluginTakes;
    hide ClosesItsInput, ProcessDies;
    match e {
      case PluginReadsLine(u, now) => ReadsAlone(b, u, now, t);
      case PluginPublishesEvent(u, text) => PublishesAlone(b, u, text, t);
      case PluginPrintsLine(u, m) => PrintsAlone(b, u, m, t);
      case PluginTakesLine(u) => TakesAlone(b, u, t);
      case InputCloses(u) => EndsAlone(b, u, t);
      case ProcessEnds(u) => EndsAlone(b, u, t);
    }
  }

  lemma ProcessAccepts(b: Broker, e: Event, t: Token)
    requires OnProcess(e)
    ensures SameAccepted(b, Step(b, e), t)
  {
    ProcessAlone(b, e, t);
    hide Step;
  }

  /** Events that touch no launch. */
  predicate OnRecords(e: Event)
  {
    e.InstallCalled? || e.BundledFound? || e.RemoveCalled? || e.SystemLogged? || e.StoppingSet? || e.ExitSeen?
  }

  lemma RecordsTouchNoLaunch(b: Broker, e: Event)
    requires OnRecords(e)
    ensures Step(b, e).launches == b.launches
  {
    hide Possible;
    hide SetGrants, SetEnabled, Restart, LaunchPlugin, StopPlugin, Relaunch, RestartProgram;
    hide InstallArchive, InstallBundled, RemovePlugin, Logged, HandleExit;
    hide SendSample, MarkUnresponsive, ReadStdout, PluginReads, PluginPublishes, PluginPrints, PluginTakes;
    match e {
      case InstallCalled(name, pkg, suffix, fault, saves) => InstallTouches(b, name, pkg, suffix, fault, saves);
      case BundledFound(name, pkg, copied, saves) => BundledTouches(b, name, pkg, copied, saves);
      case RemoveCalled(id, left, saves) => RemoveTouches(b, id, left, saves);
      case SystemLogged(id, line, saves) => LogsRegisterNothing(b, id, line, saves);
      case ExitSeen(t, logSaves, countSaves) => ExitTouches(b, t, logSaves, countSaves, "");
      case StoppingSet(_) =>
    }
  }

  lemma InstallTouches(b: Broker, name: string, pkg: Package, suffix: string, fault: Fault, saves: bool)
    ensures var after := InstallArchive(b, name, pkg, suffix, fault, saves).0;
      after.launches == b.launches && after.runtimes == b.runtimes && after.loose == b.loose
  {
    hide ReadManifest, EntryOf, Swap;
  }

  lemma BundledTouches(b: Broker, name: Id, pkg: Package, copied: bool, saves: bool)
    ensures var after := InstallBundled(b, name, pkg, copied, saves);
      after.launches == b.launches && after.runtimes == b.runtimes && after.loose == b.loose
  {
    hide EntryOf;
  }

  lemma RemoveTouches(b: Broker, id: Id, left: Option<Package>, saves: bool)
    ensures var after := RemovePlugin(b, id, left, saves).0;
      after.launches == b.launches && after.runtimes == b.runtimes && after.loose == b.loose
  {
    hide ManifestFor, EntryOf;
  }

  lemma OthersAccept(b: Broker, e: Event, t: Token)
    requires !ByLaunching(e) && !OnProcess(e) && !e.LineFromPlugin?
    ensures SameAccepted(b, Step(b, e), t)
  {
    hide ManifestFor, Approved, StopPlugin, EntryOf;
    if OnRecords(e) {
      RecordsTouchNoLaunch(b, e);
      hide Step;
    } else {
      match e {
        case SetGrantsCalled(id, _, _) => StopAccepts(b, id, t);
        case StopCalled(id) => StopAccepts(b, id, t);
        case _ =>
      }
    }
  }

  lemma ReadAccepts(b: Broker, from: Token, t: Token)
    requires t in b.launches && !SameAccepted(b, ReadStdout(b, from), t)
    ensures from == t && "events.publish" in EntryOf(b, b.launches[t].pluginId).grants
    ensures var l := b.launches[t];
      && l.toHost != [] && Authentic(t, l.toHost[0]) && l.toHost[0].EventMessage?
      && t in ReadStdout(b, from).launches
      && ReadStdout(b, from).launches[t].accepted == l.accepted + [l.toHost[0].text]
  {
    hide EntryOf, AppendLog;
    if from in b.launches && b.launches[from].toHost != [] {
      var l := b.launches[from];
      var granted := "events.publish" in EntryOf(b, l.pluginId).grants;
      var (l', line) := TakeLine(l, from, granted);
      if line.Some? {
        LogTakesNothingIn(WithLaunch(b, from, l'), from, line.value, t);
      }
    }
  }

  lemma LogTakesNothingIn(b: Broker, from: Token, line: LogLine, t: Token)
    requires from in b.launches
    ensures SameAccepted(b, AppendLog(b, from, line), t)
  {
    hide EntryOf, Clipped;
  }

  /** An event is taken in only by reading a line of its launch, while the registry grants publishing. */
  lemma AcceptedOnlyWhileGranted(b: Broker, e: Event, t: Token)
    requires t in b.launches && !SameAccepted(b, Step(b, e), t)
    ensures e == LineFromPlugin(t) && "events.publish" in EntryOf(b, b.launches[t].pluginId).grants
    ensures var l := b.launches[t];
      && l.toHost != [] && Authentic(t, l.toHost[0]) && l.toHost[0].EventMessage?
      && t in Step(b, e).launches && Step(b, e).launches[t].accepted == l.accepted + [l.toHost[0].text]
  {
    if ByLaunching(e) {
      LaunchingAccepts(b, e, t);
    } else if OnProcess(e) {
      ProcessAccepts(b, e, t);
    } else if e.LineFromPlugin? {
      hide ReadStdout;
      ReadAccepts(b, e.from, t);
    } else {
      OthersAccept(b, e, t);
    }
  }

  /**
   In every reachable state, and whoever wrote the events of a registered launch that has not been disabled
   without being stopped: with the grant, they
   have been taken in in the order they were written, up to those still in the pipe, none dropped,
   repeated or reordered; without the grant, none has been taken in.
   */
  lemma NoEventLost(b0: Broker, es: seq<Event>, t: Token)
    requires Fresh(b0)
    requires Registered(Run(b0, es), t) && Run(b0, es).launches[t].pluginId !in Run(b0, es).loose
    ensures var b := Run(b0, es);
      var l := b.launches[t];
      if "events.publish" in EntryOf(b, l.pluginId).grants then l.published == l.accepted + EventsIn(t, l.toHost)
      else l.accepted == []
  {
    FreshInv(b0);
    RunKeeps(b0, es);
    hide Run, LaunchOk;
    assert RuntimeOk(Run(b0, es), Run(b0, es).launches[t].pluginId);
  }

  /**
   In any state, an authenticated event at the head of the pipe is accepted and logged if and only if the
   registry grants publishing; without the grant the line is dropped and nothing else changes.
   */
  lemma EventsAreAccepted(b: Broker, t: Token)
    requires t in b.launches && b.launches[t].toHost != []
    requires var m := b.launches[t].toHost[0]; Authentic(t, m) && m.EventMessage?
    ensures var l := b.launches[t];
      var text := l.toHost[0].text;
      var after := ReadStdout(b, t).launches[t];
      if "events.publish" in EntryOf(b, l.pluginId).grants then
        && after.accepted == l.accepted + [text]
        && after.logs != [] && after.logs[|after.logs| - 1] == Clipped(LogLine("event", text))
      else ReadStdout(b, t) == WithLaunch(b, t, l.(toHost := l.toHost[1..]))
  {
    hide EntryOf, Clipped;
  }

  /**
   In every reachable state the SDK of a registered launch holds no grants until it has handled the hello,
   and all of the registry's from then on. Unless the plugin has been disabled without being stopped it holds
   no others, so an event it agrees to send is one the broker accepts.
   */
  lemma SdkAgreesWithRegistry(b0: Broker, es: seq<Event>, t: Token)
    requires Fresh(b0)
    requires Registered(Run(b0, es), t)
    ensures var b := Run(b0, es);
      var l := b.launches[t];
      && l.sdk.token == t
      && (!l.sdk.greeted ==> l.sdk.grants == {})
      && (l.sdk.greeted ==> EntryOf(b, l.pluginId).grants <= l.sdk.grants)
      && (l.pluginId !in b.loose ==> l.sdk.grants <= EntryOf(b, l.pluginId).grants)
  {
    FreshInv(b0);
    RunKeeps(b0, es);
    hide Run;
    var b := Run(b0, es);
    assert LaunchOk(t, b.launches[t]) && RuntimeOk(b, b.launches[t].pluginId);
  }

  // ---------------------------------------------------------------- running before the hello is handled

  /**
   In every reachable state, a registered launch that is shown as running and has been orderly has handled
   its own hello. Unless its plugin has been disabled without being stopped, its SDK holds the registry's
   grants.
   */
  lemma RunningMeansGreeted(b0: Broker, es: seq<Event>, t: Token)
    requires Fresh(b0)
    requires Registered(Run(b0, es), t) && Run(b0, es).launches[t].status == Running
    requires Run(b0, es).launches[t].orderly
    ensures var b := Run(b0, es);
      var l := b.launches[t];
      && l.sdk.greeted && l.sdk.token == t
      && (l.pluginId !in b.loose ==> l.sdk.grants == EntryOf(b, l.pluginId).grants)
  {
    FreshInv(b0);
    RunKeeps(b0, es);
    hide Run;
    var b := Run(b0, es);
    assert LaunchOk(t, b.launches[t]) && RuntimeOk(b, b.launches[t].pluginId);
  }

  /** Shown as running although its SDK has not handled the hello. */
  predicate Misled(b: Broker, t: Token)
  {
    t in b.launches && b.launches[t].status == Running && !b.launches[t].sdk.greeted
  }

  /** The next n lines of launch t are read. */
  function Reads(b: Broker, t: Token, n: nat): Broker
    decreases n
  {
    if n == 0 then b else Reads(Step(b, LineFromPlugin(t)), t, n - 1)
  }

  /** At no point of reading what is in its pipe is launch t shown as running ungreeted. */
  ghost predicate NeverMisled(b: Broker, t: Token)
  {
    forall n: nat :: !Misled(Reads(b, t, n), t)
  }

  predicate Orderly(b: Broker, t: Token)
  {
    t in b.launches ==> b.launches[t].orderly
  }

  /** What reading its next line does to a launch. */
  ghost predicate ReadFrom(t: Token, l: Launch, l': Launch)
  {
    && l'.sdk == l.sdk && l'.orderly == l.orderly && l'.pluginId == l.pluginId
    && l'.toHost == (if l.toHost == [] then [] else l.toHost[1..])
    && (l.toHost != [] && StatusLine(t, l.toHost[0]) ==> l'.status == Running)
  }

  lemma TakeLineReads(l: Launch, t: Token, granted: bool)
    requires l.toHost != []
    ensures ReadFrom(t, l, TakeLine(l, t, granted).0)
  {
  }

  lemma LogLeaves(b: Broker, t: Token, line: LogLine, l: Launch)
    requires t in b.launches && ReadFrom(t, l, b.launches[t])
    ensures var after := AppendLog(b, t, line);
      && after.runtimes == b.runtimes && after.launches == b.launches[t := after.launches[t]]
      && ReadFrom(t, l, after.launches[t])
  {
    hide EntryOf, Clipped;
  }

  /** Reading a line leaves the registration and all other launches alone. */
  lemma StdoutReads(b: Broker, t: Token)
    requires t in b.launches
    ensures var after := ReadStdout(b, t);
      && t in after.launches && after.runtimes == b.runtimes && after.launches == b.launches[t := after.launches[t]]
      && ReadFrom(t, b.launches[t], after.launches[t])
  {
    hide EntryOf, Clipped, TakeLine, AppendLog;
    if b.launches[t].toHost != [] {
      var l := b.launches[t];
      var granted := "events.publish" in EntryOf(b, l.pluginId).grants;
      TakeLineReads(l, t, granted);
      var (l', line) := TakeLine(l, t, granted);
      hide ReadFrom;
      if line.Some? {
        LogLeaves(WithLaunch(b, t, l'), t, line.value, l);
      }
    }
  }

  /** Reading a line leaves the SDK, the registration and the record of order alone. */
  lemma ReadLeaves(b: Broker, t: Token)
    ensures var after := Step(b, LineFromPlugin(t));
      && after.runtimes == b.runtimes && after.launches.Keys == b.launches.Keys
      && (t in b.launches ==> ReadFrom(t, b.launches[t], after.launches[t]))
  {
    hide ReadFrom;
    if t in b.launches {
      StdoutReads(b, t);
      hide ReadStdout;
    }
  }

  lemma {:induction false} OrderlyNeverMisled(b: Broker, t: Token, n: nat)
    requires Inv(b) && Orderly(b, t)
    ensures !Misled(Reads(b, t, n), t)
    decreases n
  {
    if n == 0 {
      assert t in b.launches ==> LaunchOk(t, b.launches[t]);
    } else {
      ReadLeaves(b, t);
      StepKeeps(b, LineFromPlugin(t));
      hide Inv, Step;
      OrderlyNeverMisled(Step(b, LineFromPlugin(t)), t, n - 1);
    }
  }

  /** An ungreeted launch with such a line in its pipe is shown as running when that line is read. */
  lemma {:induction false} MisledByLine(b: Broker, t: Token, i: nat)
    requires t in b.launches && !b.launches[t].sdk.greeted
    requires i < |b.launches[t].toHost| && StatusLine(t, b.launches[t].toHost[i])
    ensures Misled(Reads(b, t, i + 1), t) && Reads(b, t, i + 1).runtimes == b.runtimes
    decreases i
  {
    var after := Step(b, LineFromPlugin(t));
    ReadLeaves(b, t);
    hide Step;
    if i == 0 {
      assert Reads(after, t, 0) == after;
    } else {
      assert after.launches[t].toHost[i - 1] == b.launches[t].toHost[i];
      MisledByLine(after, t, i - 1);
    }
  }

  /** Launch t keeps its record of order, or is new and orderly. */
  predicate OrderKept(b: Broker, b': Broker, t: Token)
  {
    && (t in b.launches ==> t in b'.launches && b'.launches[t].orderly == b.launches[t].orderly)
    && (t !in b.launches ==> Orderly(b', t))
  }

  lemma StopKeepsOrder(b: Broker, id: Id, t: Token)
    ensures OrderKept(b, StopPlugin(b, id), t)
  {
  }

  lemma LaunchKeepsOrder(b: Broker, id: Id, u: Token, spawn: Spawn, t: Token)
    requires u !in b.launches
    ensures OrderKept(b, LaunchPlugin(b, id, u, spawn).0, t)
  {
    hide ManifestFor, Approved;
  }

  lemma SetEnabledKeepsOrder(b: Broker, id: Id, enabled: bool, saves: bool, u: Token, spawn: Spawn, t: Token)
    requires u !in b.launches
    ensures OrderKept(b, SetEnabled(b, id, enabled, saves, u, spawn).0, t)
  {
    hide ManifestFor, Approved, LaunchPlugin, StopPlugin;
    LaunchKeepsOrder(Recorded(b, id, true), id, u, spawn, t);
    StopKeepsOrder(Recorded(b, id, false), id, t);
  }

  lemma RestartKeepsOrder(b: Broker, id: Id, u: Token, spawn: Spawn, t: Token)
    requires u !in b.launches
    ensures OrderKept(b, Restart(b, id, u, spawn).0, t)
  {
    hide LaunchPlugin, StopPlugin;
    StopKeepsOrder(b, id, t);
    StopKeepsTokens(b, id);
    LaunchKeepsOrder(StopPlugin(b, id), id, u, spawn, t);
  }

  predicate Launches(e: Event)
  {
    e.SetGrantsCalled? || e.StopCalled? || ByLaunching(e)
  }

  lemma LaunchingKeepsOrder(b: Broker, e: Event, t: Token)
    requires Launches(e)
    ensures OrderKept(b, Step(b, e), t)
  {
    if Possible(b, e) {
      hide OrderKept;
      hide SetGrants, SetEnabled, Restart, LaunchPlugin, StopPlugin, RestartProgram;
      hide InstallArchive, InstallBundled, RemovePlugin, Logged, HandleExit;
      hide SendSample, MarkUnresponsive, ReadStdout, PluginReads, PluginPublishes, PluginPrints, PluginTakes;
      match e {
        case SetGrantsCalled(id, _, _) => StopKeepsOrder(b, id, t);
        case SetEnabledCalled(id, enabled, saves, u, spawn) => SetEnabledKeepsOrder(b, id, enabled, saves, u, spawn, t);
        case RestartCalled(id, u, spawn) => RestartKeepsOrder(b, id, u, spawn, t);
        case LaunchCalled(id, u, spawn) => LaunchKeepsOrder(b, id, u, spawn, t);
        case StopCalled(id) => StopKeepsOrder(b, id, t);
        case RelaunchDue(u, spawn) =>
          if b.pending.Some? {
            LaunchKeepsOrder(b.(pending := None), b.pending.value, u, spawn, t);
          }
      }
    }
  }

  predicate Writes(e: Event)
  {
    e.PluginPrintsLine? || e.PluginReadsLine?
  }

  lemma ReadingKeepsOrder(b: Broker, from: Token, t: Token)
    ensures OrderKept(b, ReadStdout(b, from), t)
  {
    if from in b.launches {
      StdoutReads(b, from);
      hide ReadStdout;
    }
  }

  lemma OthersKeepOrder(b: Broker, e: Event, t: Token)
    requires !Launches(e) && !Writes(e) && !e.LineFromPlugin?
    ensures OrderKept(b, Step(b, e), t)
  {
    hide EntryOf;
    if OnRecords(e) {
      RecordsTouchNoLaunch(b, e);
      hide Step;
    } else {
      hide Possible;
      match e {
        case ProgramRestarts =>
        case SampleSent(to) =>
        case HeartbeatLate(of) =>
        case _ =>
          ProcessAlone(b, e, t);
          hide Step;
      }
    }
  }

  /** Steps leave the order of a launch alone, unless its process or its SDK writes a line. */
  lemma QuietKeepsOrder(b: Broker, e: Event, t: Token)
    requires !Writes(e)
    ensures OrderKept(b, Step(b, e), t)
  {
    if Launches(e) {
      LaunchingKeepsOrder(b, e, t);
    } else if e.LineFromPlugin? {
      hide ReadStdout;
      ReadingKeepsOrder(b, e.from, t);
    } else {
      OthersKeepOrder(b, e, t);
    }
  }

  /** The step at which a launch stops being orderly leaves it ungreeted with such a line in its pipe. */
  ghost predicate OrderLost(t: Token, l: Launch)
  {
    !l.sdk.greeted && l.toHost != [] && StatusLine(t, l.toHost[|l.toHost| - 1])
  }

  /** A written line is the only thing that can end a launch's order. */
  ghost predicate OrderWritten(b: Broker, b': Broker, t: Token)
  {
    && b'.launches.Keys == b.launches.Keys
    && (t in b.launches ==>
          var l, l' := b.launches[t], b'.launches[t];
          (l'.orderly ==> l.orderly) && (l.orderly && !l'.orderly ==> OrderLost(t, l')))
  }

  lemma PrintOrder(b: Broker, u: Token, m: PluginMessage, t: Token)
    ensures OrderWritten(b, PluginPrints(b, u, m), t)
  {
    hide StatusLine, Authentic;
  }

  lemma ReadOrder(b: Broker, u: Token, now: real, t: Token)
    requires t in b.launches ==> b.launches[t].sdk.token == t
    ensures OrderWritten(b, PluginReads(b, u, now), t)
  {
  }

  lemma WritingAndOrder(b: Broker, e: Event, t: Token)
    requires Writes(e) && (t in b.launches ==> b.launches[t].sdk.token == t)
    ensures OrderWritten(b, Step(b, e), t)
  {
    hide OrderWritten;
    hide SetGrants, SetEnabled, Restart, LaunchPlugin, StopPlugin, Relaunch, RestartProgram;
    hide InstallArchive, InstallBundled, RemovePlugin, Logged, HandleExit;
    hide SendSample, MarkUnresponsive, ReadStdout, PluginReads, PluginPublishes, PluginPrints, PluginTakes;
    if e.PluginPrintsLine? {
      PrintOrder(b, e.printer, e.line, t);
    } else {
      ReadOrder(b, e.reader, e.now, t);
    }
  }

  /** The reader could be misled about launch t at some point of the run. */
  ghost predicate EverMisled(b0: Broker, es: seq<Event>, t: Token)
  {
    exists k: nat :: k <= |es| && !NeverMisled(Run(b0, es[..k]), t)
  }

  /**
   Exactly: over any run, a launch is still orderly if and only if at no point of the run would reading on
   in its pipe have shown it as running before its SDK had handled the hello.
   */
  lemma {:induction false} OrderlyExactlyNeverMisled(b0: Broker, es: seq<Event>, t: Token)
    requires Fresh(b0)
    ensures Orderly(Run(b0, es), t) <==> !EverMisled(b0, es, t)
  {
    hide Inv, Step, NeverMisled;
    var b := Run(b0, es);
    assert es[..|es|] == es;
    FreshInv(b0);
    RunKeeps(b0, es);
    if es == [] {
      OrderlyIsSafe(b, t);
      assert es[..0] == [];
    } else {
      var front, e := es[..|es| - 1], es[|es| - 1];
      OrderlyExactlyNeverMisled(b0, front, t);
      RunKeeps(b0, front);
      EverMisledStep(b0, es, t);
      OrderlyStep(Run(b0, front), e, t);
    }
  }

  lemma FreshInv(b: Broker)
    requires Fresh(b)
    ensures Inv(b)
    ensures forall t :: Orderly(b, t)
  {
  }

  lemma OrderlyIsSafe(b: Broker, t: Token)
    requires Inv(b) && Orderly(b, t)
    ensures NeverMisled(b, t)
  {
    forall n: nat ensures !Misled(Reads(b, t, n), t) {
      OrderlyNeverMisled(b, t, n);
    }
  }

  lemma EverMisledStep(b0: Broker, es: seq<Event>, t: Token)
    requires es != []
    ensures EverMisled(b0, es, t) <==> EverMisled(b0, es[..|es| - 1], t) || !NeverMisled(Run(b0, es), t)
  {
    hide Run, NeverMisled;
    var front := es[..|es| - 1];
    assert es[..|es|] == es;
    if k: nat :| k <= |front| && !NeverMisled(Run(b0, front[..k]), t) {
      assert es[..k] == front[..k];
      assert EverMisled(b0, es, t);
    }
    if k: nat :| k <= |es| && !NeverMisled(Run(b0, es[..k]), t) {
      assert k < |es| ==> es[..k] == front[..k];
    }
  }

  lemma OrderlyStep(b: Broker, e: Event, t: Token)
    requires Inv(b)
    ensures Orderly(Step(b, e), t) <==> Orderly(b, t) && NeverMisled(Step(b, e), t)
  {
    hide Step;
    var after := Step(b, e);
    StepKeeps(b, e);
    assert t in b.launches ==> LaunchOk(t, b.launches[t]) && b.launches[t].sdk.token == t;
    hide Inv, LaunchOk;
    if Writes(e) {
      WritingAndOrder(b, e, t);
    } else {
      QuietKeepsOrder(b, e, t);
    }
    if Orderly(after, t) {
      OrderlyIsSafe(after, t);
    } else if Orderly(b, t) {
      var i := |after.launches[t].toHost| - 1;
      MisledByLine(after, t, i);
      assert Misled(Reads(after, t, i + 1), t);
    }
  }

  /** A process that writes a ready or heartbeat line of its own before any hello is shown as running. */
  lemma OwnReadyRunsUngreeted(b: Broker, t: Token, m: PluginMessage)
    requires t in b.launches && b.launches[t].alive && !b.launches[t].sdk.greeted && b.launches[t].toHost == []
    requires StatusLine(t, m)
    ensures var after := Step(Step(b, PluginPrintsLine(t, m)), LineFromPlugin(t)).launches;
      && t in after && after[t].status == Running && !after[t].sdk.greeted && !after[t].orderly
      && after[t].toPlugin == b.launches[t].toPlugin
  {
    assert ([] + [m])[0] == m;
  }

  /**
   So it goes with the bundled plugins, which greet the host before they read anything: from any fresh
   broker the launch is shown as running while its hello, with the grants, is still unread.
   */
  lemma BundledPluginRunsUngreeted(b: Broker, id: Id, t: Token)
    requires Fresh(b) && ManifestFor(b, id).Some? && Approved(b, id)
    ensures var enabled := Step(b, SetEnabledCalled(id, true, true, t, Runs));
      var after := Step(Step(enabled, PluginPrintsLine(t, Ready(t))), LineFromPlugin(t)).launches;
      && t in after && after[t].status == Running && !after[t].sdk.greeted
      && after[t].toPlugin == [Hello(t, EntryOf(b, id).grants)]
  {
    EnabledLaunch(b, id, t);
    hide Step;
    OwnReadyRunsUngreeted(Step(b, SetEnabledCalled(id, true, true, t, Runs)), t, Ready(t));
  }

  lemma EnabledLaunch(b: Broker, id: Id, t: Token)
    requires Fresh(b) && ManifestFor(b, id).Some? && Approved(b, id)
    ensures var launches := Step(b, SetEnabledCalled(id, true, true, t, Runs)).launches;
      t in launches && launches[t] == NewLaunch(b, id, t, Runs)
  {
    hide ReadManifest, ValidId;
  }

  // ---------------------------------------------------------------- exit reports

  /** An exit report for a launch that has been replaced or stopped changes nothing at all. */
  lemma StaleExitIsHarmless(b: Broker, t: Token, logSaves: bool, countSaves: bool)
    requires t in b.launches
    requires b.launches[t].pluginId in b.runtimes ==> b.runtimes[b.launches[t].pluginId] != t
    ensures Step(b, ExitSeen(t, logSaves, countSaves)) == b
  {
  }

  /**
   In every reachable state, no exit report touches a plugin that has a live process: the process stays
   registered and its plugin's record, restart counter included, stays as it is.
   */
  lemma ExitSparesLive(b0: Broker, es: seq<Event>, dead: Token, logSaves: bool, countSaves: bool, live: Token)
    requires Fresh(b0)
    requires live in Run(b0, es).launches && Run(b0, es).launches[live].alive
    ensures var b := Run(b0, es);
      var after := Step(b, ExitSeen(dead, logSaves, countSaves));
      && Registered(after, live) && after.launches == b.launches
      && EntryOf(after, b.launches[live].pluginId) == EntryOf(b, b.launches[live].pluginId)
  {
    LiveMeansRegistered(b0, es, live);
    hide Run, Approved;
    var b := Run(b0, es);
    ExitTouches(b, dead, logSaves, countSaves, b.launches[live].pluginId);
    hide HandleExit;
  }

  /** An exit report changes nothing of the plugins it is not about. */
  lemma ExitTouches(b: Broker, t: Token, logSaves: bool, countSaves: bool, id: Id)
    ensures var after := HandleExit(b, t, logSaves, countSaves).0;
      && after.launches == b.launches
      && (!Registered(b, t) || b.launches[t].pluginId != id ==>
            && (id in after.runtimes <==> id in b.runtimes)
            && (id in b.runtimes ==> after.runtimes[id] == b.runtimes[id])
            && EntryOf(after, id) == EntryOf(b, id))
  {
  }

  // ---------------------------------------------------------------- disabled without being stopped

  /**
   What one step may do to the registration of a plugin: it stays as it is, and only a step that leaves it
   not enabled takes it out of supervision; or it is that of a new, supervised launch.
   */
  predicate RegistrationKept(b: Broker, b': Broker, id: Id)
  {
    id in b'.runtimes ==>
      if id in b.runtimes && b'.runtimes[id] == b.runtimes[id] then
        && (id in b.loose ==> id in b'.loose)
        && (id in b'.loose && id !in b.loose ==> !EntryOf(b', id).enabled)
      else b'.runtimes[id] !in b.launches && id !in b'.loose
  }

  predicate RegisteredKnown(b: Broker, id: Id)
  {
    id in b.runtimes ==> b.runtimes[id] in b.launches
  }

  predicate SameRegistrations(b: Broker, b': Broker)
  {
    b'.runtimes == b.runtimes && b'.loose == b.loose
  }

  lemma LogRegistersNothing(b: Broker, t: Token, line: LogLine)
    requires t in b.launches
    ensures SameRegistrations(b, AppendLog(b, t, line))
  {
  }

  lemma ReadRegistersNothing(b: Broker, t: Token)
    ensures SameRegistrations(b, ReadStdout(b, t))
  {
    hide EntryOf, TakeLine, AppendLog;
    if t in b.launches && b.launches[t].toHost != [] {
      var l := b.launches[t];
      var (l', line) := TakeLine(l, t, "events.publish" in EntryOf(b, l.pluginId).grants);
      if line.Some? {
        LogRegistersNothing(WithLaunch(b, t, l'), t, line.value);
      }
    }
  }

  lemma OthersRegisterNothing(b: Broker, e: Event)
    requires !Launches(e) && !e.ExitSeen? && !e.ProgramRestarts?
    ensures SameRegistrations(b, Step(b, e))
  {
    hide ReadStdout, Possible, SdkRead, SdkPublish, EntryOf;
    hide SetGrants, SetEnabled, Restart, LaunchPlugin, StopPlugin, Relaunch, RestartProgram;
    hide InstallArchive, InstallBundled, RemovePlugin, Logged, HandleExit;
    match e {
      case InstallCalled(name, pkg, suffix, fault, saves) => InstallTouches(b, name, pkg, suffix, fault, saves);
      case BundledFound(name, pkg, copied, saves) => BundledTouches(b, name, pkg, copied, saves);
      case RemoveCalled(id, left, saves) => RemoveTouches(b, id, left, saves);
      case SystemLogged(id, line, saves) => LogsRegisterNothing(b, id, line, saves);
      case LineFromPlugin(t) => ReadRegistersNothing(b, t);
      case _ =>
    }
  }

  lemma StopRegistration(b: Broker, id: Id, k: Id)
    ensures RegistrationKept(b, StopPlugin(b, id), k)
  {
    hide EntryOf, Sent;
  }

  lemma LaunchRegistration(b: Broker, id: Id, t: Token, spawn: Spawn, k: Id)
    requires t !in b.launches && RegisteredKnown(b, k)
    ensures RegistrationKept(b, LaunchPlugin(b, id, t, spawn).0, k)
  {
    hide ManifestFor, Approved, NewLaunch;
  }

  lemma SetEnabledRegistration(b: Broker, id: Id, enabled: bool, saves: bool, t: Token, spawn: Spawn, k: Id)
    requires t !in b.launches && RegisteredKnown(b, k)
    ensures RegistrationKept(b, SetEnabled(b, id, enabled, saves, t, spawn).0, k)
  {
    hide ManifestFor, Approved, LaunchPlugin, StopPlugin;
    LaunchRegistration(Recorded(b, id, true), id, t, spawn, k);
    StopRegistration(Recorded(b, id, false), id, k);
  }

  lemma RestartRegistration(b: Broker, id: Id, t: Token, spawn: Spawn, k: Id)
    requires t !in b.launches && RegisteredKnown(b, k)
    ensures RegistrationKept(b, Restart(b, id, t, spawn).0, k)
  {
    hide ManifestFor, Approved, LaunchPlugin, Sent;
    StopRegistration(b, id, k);
    StopKeepsTokens(b, id);
    LaunchRegistration(StopPlugin(b, id), id, t, spawn, k);
    LaunchRecordsNothing(StopPlugin(b, id), id, t, spawn);
  }

  lemma LaunchingRegistration(b: Broker, e: Event, k: Id)
    requires Launches(e) && Possible(b, e) && RegisteredKnown(b, k)
    ensures RegistrationKept(b, Step(b, e), k)
  {
    hide ManifestFor, Approved;
    hide SetEnabled, Restart, LaunchPlugin, StopPlugin, RestartProgram;
    hide InstallArchive, InstallBundled, RemovePlugin, Logged, HandleExit;
    hide SendSample, MarkUnresponsive, ReadStdout, PluginReads, PluginPublishes, PluginPrints, PluginTakes;
    match e {
      case SetGrantsCalled(id, _, _) => StopRegistration(b, id, k);
      case SetEnabledCalled(id, enabled, saves, t, spawn) => SetEnabledRegistration(b, id, enabled, saves, t, spawn, k);
      case RestartCalled(id, t, spawn) => RestartRegistration(b, id, t, spawn, k);
      case LaunchCalled(id, t, spawn) => LaunchRegistration(b, id, t, spawn, k);
      case StopCalled(id) => StopRegistration(b, id, k);
      case RelaunchDue(t, spawn) =>
        if b.pending.Some? {
          LaunchRegistration(b.(pending := None), b.pending.value, t, spawn, k);
        }
    }
  }

  lemma ExitRegistration(b: Broker, t: Token, logSaves: bool, countSaves: bool, k: Id)
    ensures RegistrationKept(b, HandleExit(b, t, logSaves, countSaves).0, k)
  {
    hide EntryOf, RecordSystemLog;
    var id := if t in b.launches then b.launches[t].pluginId else "";
    LogsRegisterNothing(b.(runtimes := b.runtimes - {id}, loose := b.loose - {id}), id, EXIT_LINE, logSaves);
    hide Logged;
  }

  lemma StepRegistration(b: Broker, e: Event, k: Id)
    requires Inv(b)
    ensures RegistrationKept(b, Step(b, e), k)
  {
    assert RegisteredKnown(b, k) by {
      assert k in b.runtimes ==> RuntimeOk(b, k);
    }
    hide Inv;
    if Possible(b, e) {
      if Launches(e) {
        LaunchingRegistration(b, e, k);
      } else if e.ExitSeen? {
        ExitRegistration(b, e.dead, e.logSaves, e.countSaves, k);
      } else if !e.ProgramRestarts? {
        OthersRegisterNothing(b, e);
        hide Step;
      }
    }
  }

  lemma LaunchesStay(b: Broker, e: Event, t: Token)
    requires t in b.launches
    ensures t in Step(b, e).launches
  {
    if Writes(e) {
      ProcessAlone(b, e, t);
      hide Step;
    } else {
      hide Step;
      QuietKeepsOrder(b, e, t);
    }
  }

  /** Launch t is registered for its plugin, which is not enabled. */
  predicate OffWhileRegistered(b: Broker, id: Id, t: Token)
  {
    id in b.runtimes && b.runtimes[id] == t && !EntryOf(b, id).enabled
  }

  ghost predicate EverOff(b0: Broker, es: seq<Event>, id: Id, t: Token)
  {
    exists k: nat :: k <= |es| && OffWhileRegistered(Run(b0, es[..k]), id, t)
  }

  lemma EverOffStep(b0: Broker, es: seq<Event>, id: Id, t: Token)
    requires es != []
    ensures EverOff(b0, es, id, t) <==> EverOff(b0, es[..|es| - 1], id, t) || OffWhileRegistered(Run(b0, es), id, t)
  {
    hide Run, OffWhileRegistered;
    var front := es[..|es| - 1];
    assert es[..|es|] == es;
    if k: nat :| k <= |front| && OffWhileRegistered(Run(b0, front[..k]), id, t) {
      assert es[..k] == front[..k];
      assert EverOff(b0, es, id, t);
    }
    if k: nat :| k <= |es| && OffWhileRegistered(Run(b0, es[..k]), id, t) {
      assert k < |es| ==> es[..k] == front[..k];
    }
  }

  /** A launch that was ever registered is still known. */
  lemma {:induction false} EverOffKnown(b0: Broker, es: seq<Event>, id: Id, t: Token)
    requires Inv(b0) && EverOff(b0, es, id, t)
    ensures t in Run(b0, es).launches
  {
    hide Inv, Step, EverOff, OffWhileRegistered;
    RunKeeps(b0, es);
    if OffWhileRegistered(Run(b0, es), id, t) {
      RegisteredIsKnown(Run(b0, es), id, t);
    } else if es == [] {
      assert false by { assert EverOff(b0, es, id, t); NothingYet(b0, es, id, t); }
    } else {
      EverOffStep(b0, es, id, t);
      EverOffKnown(b0, es[..|es| - 1], id, t);
      LaunchesStay(Run(b0, es[..|es| - 1]), es[|es| - 1], t);
    }
  }

  lemma NothingYet(b0: Broker, es: seq<Event>, id: Id, t: Token)
    requires es == []
    ensures EverOff(b0, es, id, t) <==> OffWhileRegistered(Run(b0, es), id, t)
  {
    assert es[..0] == es;
  }

  lemma RegisteredIsKnown(b: Broker, id: Id, t: Token)
    requires Inv(b) && OffWhileRegistered(b, id, t)
    ensures t in b.launches && id in b.loose
  {
    assert RuntimeOk(b, id);
  }

  /**
   Exactly: over any run, a registered plugin is out of supervision if and only if at some point of the run
   the launch it still has was registered while the plugin was not enabled.
   */
  lemma {:induction false} LooseExactlyWhenEverOff(b0: Broker, es: seq<Event>, id: Id)
    requires Fresh(b0) && id in Run(b0, es).runtimes
    ensures id in Run(b0, es).loose <==> EverOff(b0, es, id, Run(b0, es).runtimes[id])
  {
    FreshInv(b0);
    RunKeeps(b0, es);
    hide Inv, Step, EverOff;
    var after := Run(b0, es);
    var t := after.runtimes[id];
    if es != [] {
      var front, e := es[..|es| - 1], es[|es| - 1];
      var before := Run(b0, front);
      RunKeeps(b0, front);
      StepRegistration(before, e, id);
      EverOffStep(b0, es, id, t);
      if OffWhileRegistered(after, id, t) {
        RegisteredIsKnown(after, id, t);
      }
      if id in before.runtimes && before.runtimes[id] == t {
        LooseExactlyWhenEverOff(b0, front, id);
      } else if EverOff(b0, front, id, t) {
        EverOffKnown(b0, front, id, t);
      }
    }
  }

  /** A disable that fails to save the registry leaves everything running, and takes the plugin out of supervision. */
  lemma UnsavedDisable(b: Broker, id: Id, t: Token, spawn: Spawn)
    requires ManifestFor(b, id).Some? && id in b.runtimes && t !in b.launches
    ensures var after := Step(b, SetEnabledCalled(id, false, false, t, spawn));
      && after.runtimes == b.runtimes && after.launches == b.launches && after.disk == b.disk
      && !EntryOf(after, id).enabled && EntryOf(after, id).bundled == EntryOf(b, id).bundled
      && id in after.loose
  {
    hide ManifestFor;
  }

  /**
   It happens: from any fresh broker a plugin is enabled, and disabling it fails to save the registry. Its
   process lives on, registered, while the plugin is not enabled.
   */
  lemma FailedDisableLeavesRunning(b: Broker, id: Id, t: Token, u: Token, spawn: Spawn)
    requires Fresh(b) && ManifestFor(b, id).Some? && Approved(b, id) && t != u
    ensures var off := Step(Step(b, SetEnabledCalled(id, true, true, t, Runs)),
                            SetEnabledCalled(id, false, false, u, spawn));
      && Registered(off, t) && off.launches[t].alive && !EntryOf(off, id).enabled && id in off.loose
      && off.disk == b.disk && EntryOf(off, id).bundled == EntryOf(b, id).bundled
  {
    hide ReadManifest, ValidId;
    var running := Step(b, SetEnabledCalled(id, true, true, t, Runs));
    assert Registered(running, t) && running.disk == b.disk && running.launches.Keys == {t}
        && running.launches[t].alive && running.launches[t].pluginId == id
        && EntryOf(running, id).bundled == EntryOf(b, id).bundled;
    UnsavedDisable(running, id, u, spawn);
    hide SetEnabled;
  }

  /** Nothing then keeps the plugin from being removed, or replaced by another package, under its process. */
  lemma GoneUnderProcess(b: Broker, id: Id, t: Token, pkg: Package, suffix: string)
    requires Registered(b, t) && !EntryOf(b, id).enabled && b.launches[t].pluginId == id
    requires ManifestFor(b, id).Some? && !EntryOf(b, id).bundled
    requires ReadManifest(id, pkg).Some? && Possible(b, InstallCalled(id, pkg, suffix, NoFault, true))
    ensures var removed := Step(b, RemoveCalled(id, None, true));
      && Registered(removed, t) && removed.launches[t] == b.launches[t]
      && id !in removed.disk && id !in removed.registry
    ensures var updated := Step(b, InstallCalled(id, pkg, suffix, NoFault, true));
      && Registered(updated, t) && updated.launches[t] == b.launches[t]
      && id in updated.disk && updated.disk[id] == pkg
  {
    ManifestNamed(id, pkg);
    hide ManifestFor, ReadManifest, ValidId;
  }

  /** A manifest is only accepted under its own name. */
  lemma ManifestNamed(name: string, pkg: Package)
    ensures ReadManifest(name, pkg).Some? ==> ReadManifest(name, pkg).value.id == name == pkg.declaredId
  {
    hide ValidId;
  }
}
