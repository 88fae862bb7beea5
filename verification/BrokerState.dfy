/**
 The plugin broker as a state machine: each broker method is one atomic step, and so is each
 line a plugin process reads or writes. Host and plugin are joined by first-in first-out pipes.
 */
module BrokerState {
  import opened Options
  import opened Plugins

  const MAX_RESTARTS := 5
  const RUNTIME_LOGS := 300
  const RECENT_LOGS := 50
  const MAX_LOG_TEXT := 2000

  datatype Status = Starting | Running | Unresponsive | Stopped

  /**
   One launch of a plugin: the broker's runtime record, the process, and the two pipes.
   `helloGrants` are the grants put into its hello; `listening` says that the process has its input open.
   A process may use the SDK, or read and write lines by itself: `orderly` records that no ready or
   heartbeat line carrying its token has been written while its SDK had not handled the hello. `published`
   and `accepted` record the authenticated events the process wrote and those the broker took in.
   */
  datatype Launch = Launch(
    pluginId: Id, helloGrants: set<string>, status: Status, alive: bool, listening: bool,
    toPlugin: seq<HostMessage>, toHost: seq<PluginMessage>, sdk: Sdk,
    orderly: bool, logs: seq<LogLine>, published: seq<string>, accepted: seq<string>)

  /**
   `registry` is the one in memory, `saved` the one in its file. `loose` holds the registered plugins that
   were disabled without being stopped, because saving the registry failed.
   */
  datatype Broker = Broker(
    disk: map<string, Package>, registry: map<Id, Entry>, saved: map<Id, Entry>,
    runtimes: map<Id, Token>, launches: map<Token, Launch>, loose: set<Id>,
    pending: Option<Id>, stopping: bool)

  /**
   How starting the process goes. When the reader threads cannot be started, or the hello not be written
   because the process is gone or has closed its input, the launch raises with the runtime registered.
   */
  datatype Spawn = Fails | NoReaders | DiesBeforeHello | ClosesInput | Runs

  /**
   Where the package swap goes wrong, if it does. The last three are failures in undoing it: after a failed
   move or validation the old directory cannot be put back, after a failed validation the new one cannot be
   removed, after a failed move the staged one cannot.
   */
  datatype Fault =
    | NoFault
    | CopyFails(partial: Option<Package>)
    | BackupMoveFails
    | MoveFails
    | ValidationFails
    | BackupRemovalFails(left: Package)
    | RollBackFails
    | PurgeFails(left: Package)
    | StagingRemovalFails(left: Package)

  // ---------------------------------------------------------------- small parts

  function EntryOf(b: Broker, id: Id): Entry
  {
    if id in b.registry then b.registry[id] else NEW_ENTRY
  }

  function WithEntry(b: Broker, id: Id, e: Entry): Broker
  {
    b.(registry := b.registry[id := e])
  }

  /** Writing the registry to its file, which may fail; a failed write leaves the file as it was. */
  function Save(b: Broker, saves: bool): Broker
  {
    if saves then b.(saved := b.registry) else b
  }

  function WithLaunch(b: Broker, t: Token, l: Launch): Broker
  {
    b.(launches := b.launches[t := l])
  }

  function ManifestFor(b: Broker, id: Id): Option<Manifest>
  {
    if ValidId(id) && id in b.disk then ReadManifest(id, b.disk[id]) else None
  }

  predicate Approved(b: Broker, id: Id)
  {
    ManifestFor(b, id).Some? && ManifestFor(b, id).value.capabilities <= EntryOf(b, id).grants
  }

  /** Is t the launch registered for its plugin? */
  predicate Registered(b: Broker, t: Token)
  {
    t in b.launches && b.launches[t].pluginId in b.runtimes && b.runtimes[b.launches[t].pluginId] == t
  }

  /** A log line keeps at most 2000 characters of its text. */
  function Clipped(line: LogLine): LogLine
  {
    line.(text := if |line.text| <= MAX_LOG_TEXT then line.text else line.text[..MAX_LOG_TEXT])
  }

  function AppendLog(b: Broker, t: Token, line: LogLine): Broker
    requires t in b.launches
  {
    var l := b.launches[t];
    var logs := TakeLast(l.logs + [Clipped(line)], RUNTIME_LOGS);
    WithEntry(WithLaunch(b, t, l.(logs := logs)), l.pluginId,
      EntryOf(b, l.pluginId).(recentLogs := TakeLast(logs, RECENT_LOGS)))
  }

  function RecordSystemLog(b: Broker, id: Id, line: LogLine): Broker
  {
    var e := EntryOf(b, id);
    WithEntry(b, id, e.(recentLogs := TakeLast(e.recentLogs + [line], RECENT_LOGS)))
  }

  /** A line reaches a process that has its input open. */
  function Sent(l: Launch, m: HostMessage): Launch
  {
    if l.listening then l.(toPlugin := l.toPlugin + [m]) else l
  }

  // ---------------------------------------------------------------- stop and launch

  function StopPlugin(b: Broker, id: Id): Broker
  {
    if id !in b.runtimes then b
    else
      var t := b.runtimes[id];
      var b1 := b.(runtimes := b.runtimes - {id}, loose := b.loose - {id});
      if t !in b.launches then b1
      else
        var l := b.launches[t];
        WithLaunch(b1, t, Sent(l, Shutdown(t)).(alive := false, status := Stopped))
  }

  function NewLaunch(b: Broker, id: Id, t: Token, spawn: Spawn): Launch
  {
    var grants := EntryOf(b, id).grants;
    Launch(id, grants, Starting, !spawn.Fails? && !spawn.DiesBeforeHello?, spawn.Runs? || spawn.NoReaders?,
      if spawn.Runs? then [Hello(t, grants)] else [], [], NewSdk(t), true, [], [], [])
  }

  /** The process is there: it is registered, and greeted if the rest of the launch goes well. */
  function Begun(b: Broker, id: Id, t: Token, spawn: Spawn): Broker
  {
    WithLaunch(b.(runtimes := b.runtimes[id := t], loose := b.loose - {id}), t, NewLaunch(b, id, t, spawn))
  }

  /** `launch`; the flag is false when it raises. */
  function LaunchPlugin(b: Broker, id: Id, t: Token, spawn: Spawn): (Broker, bool)
  {
    if id in b.runtimes && b.runtimes[id] in b.launches && b.launches[b.runtimes[id]].alive then (b, true)
    else if ManifestFor(b, id).None? || !EntryOf(b, id).enabled || !Approved(b, id) || spawn.Fails? then (b, false)
    else (Begun(b, id, t, spawn), spawn.Runs?)
  }

  lemma StopRecordsNothing(b: Broker, id: Id)
    ensures StopPlugin(b, id).registry == b.registry && StopPlugin(b, id).saved == b.saved
  {
  }

  lemma LaunchRecordsNothing(b: Broker, id: Id, t: Token, spawn: Spawn)
    ensures LaunchPlugin(b, id, t, spawn).0.registry == b.registry
    ensures LaunchPlugin(b, id, t, spawn).0.saved == b.saved
  {
    hide ManifestFor, Approved;
  }

  // ---------------------------------------------------------------- grants and enabling

  function SetGrants(b: Broker, id: Id, grants: set<string>, saves: bool): (Broker, bool)
  {
    if ManifestFor(b, id).None? || !(grants <= KNOWN_CAPABILITIES)
       || !(grants <= ManifestFor(b, id).value.capabilities) then (b, false)
    else
      (Save(WithEntry(StopPlugin(b, id), id, EntryOf(b, id).(grants := grants, enabled := false)), saves), saves)
  }

  /** The record of an enabled or disabled plugin; enabling clears its restart counter. */
  function Marked(b: Broker, id: Id, enabled: bool): Broker
  {
    var e := EntryOf(b, id).(enabled := enabled);
    WithEntry(b, id, if enabled then e.(restartCount := 0) else e)
  }

  /** The record changes first, then it is saved, and only then is the plugin launched or stopped. */
  function SetEnabled(b: Broker, id: Id, enabled: bool, saves: bool, t: Token, spawn: Spawn): (Broker, bool)
  {
    if ManifestFor(b, id).None? || (enabled && !Approved(b, id)) then (b, false)
    else if !saves then
      (Marked(b, id, enabled).(loose := if !enabled && id in b.runtimes then b.loose + {id} else b.loose), false)
    else if enabled then LaunchPlugin(Save(Marked(b, id, true), true), id, t, spawn)
    else (StopPlugin(Save(Marked(b, id, false), true), id), true)
  }

  function Restart(b: Broker, id: Id, t: Token, spawn: Spawn): (Broker, bool)
  {
    LaunchPlugin(StopPlugin(b, id), id, t, spawn)
  }

  // ---------------------------------------------------------------- installing and removing

  function StagingName(id: Id, suffix: string): string
  {
    "." + id + ".staging-" + suffix
  }

  function BackupName(id: Id, suffix: string): string
  {
    "." + id + ".backup-" + suffix
  }

  /** The directory swap on the plugin root, and whether it went through. */
  function Swap(disk: map<string, Package>, id: Id, pkg: Package, suffix: string, fault: Fault)
    : (map<string, Package>, bool)
  {
    match fault
    case NoFault => (disk[id := pkg], true)
    case CopyFails(partial) =>
      (if partial.Some? then disk[StagingName(id, suffix) := partial.value] else disk, false)
    case BackupMoveFails =>
      if id in disk then (disk[StagingName(id, suffix) := pkg], false) else (disk[id := pkg], true)
    case MoveFails => (disk, false)
    case ValidationFails => (disk, false)
    case BackupRemovalFails(left) =>
      if id in disk then (disk[id := pkg][BackupName(id, suffix) := left], false) else (disk[id := pkg], true)
    case RollBackFails =>
      (if id in disk then (disk - {id})[BackupName(id, suffix) := disk[id]] else disk, false)
    case PurgeFails(left) =>
      (if id in disk then disk[BackupName(id, suffix) := disk[id]][id := left] else disk[id := left], false)
    case StagingRemovalFails(left) => (disk[StagingName(id, suffix) := left], false)
  }

  /** `install_archive` once the archive is unpacked to one directory holding one manifest. */
  function InstallArchive(b: Broker, dirName: string, pkg: Package, suffix: string, fault: Fault, saves: bool)
    : (Broker, bool)
  {
    var m := ReadManifest(dirName, pkg);
    if m.None? then (b, false)
    else
      var id := m.value.id;
      if id in b.disk && EntryOf(b, id).enabled then (b, false)
      else
        PutInPlace(b, id, pkg, suffix, fault, saves)
  }

  /** The swap and, when it went through, the record of the installed package. */
  function PutInPlace(b: Broker, id: Id, pkg: Package, suffix: string, fault: Fault, saves: bool): (Broker, bool)
  {
    var (disk, ok) := Swap(b.disk, id, pkg, suffix, fault);
    var b1 := b.(disk := disk);
    if ok then (Save(WithEntry(b1, id, EntryOf(b1, id).(bundled := false)), saves), saves) else (b1, false)
  }

  /** When the copy fails part-way, `pkg` is what there is of it, and no record is made. */
  function InstallBundled(b: Broker, name: Id, pkg: Package, copied: bool, saves: bool): Broker
  {
    if name !in b.disk && !copied then b.(disk := b.disk[name := pkg])
    else
      var b1 := if name in b.disk then b else b.(disk := b.disk[name := pkg]);
      Save(WithEntry(b1, name, EntryOf(b, name).(bundled := true)), saves)
  }

  /** `left` is what a removal that fails part-way leaves of the directory. */
  function RemovePlugin(b: Broker, id: Id, left: Option<Package>, saves: bool): (Broker, bool)
  {
    if ManifestFor(b, id).None? || EntryOf(b, id).bundled || EntryOf(b, id).enabled then (b, false)
    else if left.Some? then (b.(disk := b.disk[id := left.value]), false)
    else (Save(b.(disk := b.disk - {id}, registry := b.registry - {id}), saves), saves)
  }

  // ---------------------------------------------------------------- the monitor

  /**
   What an exit report changes, and whether a relaunch was scheduled. The registry is saved with the log
   line and again with the counter; a save that fails ends the report.
   */
  function HandleExit(b: Broker, t: Token, logSaves: bool, countSaves: bool): (Broker, bool)
  {
    if !Registered(b, t) then (b, false)
    else
      var id := b.launches[t].pluginId;
      var b1 := Logged(b.(runtimes := b.runtimes - {id}, loose := b.loose - {id}), id, EXIT_LINE, logSaves);
      var e := EntryOf(b1, id);
      if !logSaves || !e.enabled || b.stopping then (b1, false)
      else
        var b2 := Save(WithEntry(b1, id, e.(restartCount := e.restartCount + 1)), countSaves);
        if countSaves && e.restartCount + 1 <= MAX_RESTARTS then (b2.(pending := Some(id)), true) else (b2, false)
  }

  const EXIT_LINE := LogLine("error", "Plugin exited")

  function Logged(b: Broker, id: Id, line: LogLine, saves: bool): Broker
  {
    Save(RecordSystemLog(b, id, line), saves)
  }

  /** Seconds slept before the relaunch that the n-th counted exit schedules. */
  function Backoff(n: nat): nat
  {
    if n * 2 < 10 then n * 2 else 10
  }

  /** The delayed relaunch. What it raises changes nothing more here; a broken pipe also ends the monitor. */
  function Relaunch(b: Broker, t: Token, spawn: Spawn): Broker
  {
    match b.pending
    case None => b
    case Some(id) => LaunchPlugin(b.(pending := None), id, t, spawn).0
  }

  function SendSample(b: Broker, t: Token): Broker
  {
    if !Registered(b, t) || !b.launches[t].alive
       || "telemetry.read" !in EntryOf(b, b.launches[t].pluginId).grants then b
    else
      WithLaunch(b, t, Sent(b.launches[t], Sample(t)))
  }

  function MarkUnresponsive(b: Broker, t: Token): Broker
  {
    if !Registered(b, t) || !b.launches[t].alive then b
    else WithLaunch(b, t, b.launches[t].(status := Unresponsive))
  }

  // ---------------------------------------------------------------- the pipes

  /** A line of the protocol that carries the token of launch t. */
  predicate Authentic(t: Token, m: PluginMessage)
  {
    !m.Garbled? && m.token == t
  }

  /** A line that makes the broker show launch t as running. */
  predicate StatusLine(t: Token, m: PluginMessage)
  {
    Authentic(t, m) && (m.Ready? || m.Heartbeat?)
  }

  /** What the reader thread makes of the next line: the launch without it, and a log line to append. */
  function TakeLine(l: Launch, t: Token, eventsGranted: bool): (Launch, Option<LogLine>)
    requires l.toHost != []
  {
    var m := l.toHost[0];
    var rest := l.(toHost := l.toHost[1..]);
    if m.Garbled? then (rest, Some(LogLine("warning", "Invalid protocol output")))
    else if m.token != t then (rest, Some(LogLine("warning", "Rejected unauthenticated plugin message")))
    else
      match m
      case Ready(_) => (rest.(status := Running), None)
      case Heartbeat(_) => (rest.(status := Running), None)
      case LogMessage(_, level, text) => (rest, Some(LogLine(level, text)))
      case EventMessage(_, text) =>
        if eventsGranted then (rest.(accepted := l.accepted + [text]), Some(LogLine("event", text)))
        else (rest, None)
      case Unknown(_) => (rest, None)
  }

  /** The reader thread of launch t takes one line. */
  function ReadStdout(b: Broker, t: Token): Broker
  {
    if t !in b.launches || b.launches[t].toHost == [] then b
    else
      var l := b.launches[t];
      var (l', line) := TakeLine(l, t, "events.publish" in EntryOf(b, l.pluginId).grants);
      if line.Some? then AppendLog(WithLaunch(b, t, l'), t, line.value) else WithLaunch(b, t, l')
  }

  /** The SDK of launch t reads one line. */
  function PluginReads(b: Broker, t: Token, now: real): Broker
  {
    if t !in b.launches || !b.launches[t].alive || !b.launches[t].sdk.running || b.launches[t].toPlugin == [] then b
    else
      var l := b.launches[t];
      var (sdk, out) := SdkRead(l.sdk, l.toPlugin[0], now);
      WithLaunch(b, t, l.(
        sdk := sdk, toPlugin := l.toPlugin[1..], toHost := l.toHost + out,
        orderly := l.orderly && (sdk.greeted || out == [])))
  }

  /** Plugin code calls `publish_event`; nothing is sent when the SDK refuses. */
  function PluginPublishes(b: Broker, t: Token, text: string): Broker
  {
    if t !in b.launches || !b.launches[t].alive || "events.publish" !in b.launches[t].sdk.grants then b
    else
      var l := b.launches[t];
      WithLaunch(b, t, l.(toHost := l.toHost + SdkPublish(l.sdk, text), published := l.published + [text]))
  }

  /** Plugin code writes a line by itself: a log line, a line of the protocol, or anything else. */
  function PluginPrints(b: Broker, t: Token, m: PluginMessage): Broker
  {
    if t !in b.launches || !b.launches[t].alive then b
    else
      var l := b.launches[t];
      WithLaunch(b, t, l.(
        toHost := l.toHost + [m],
        orderly := l.orderly && (l.sdk.greeted || !StatusLine(t, m)),
        published := if Authentic(t, m) && m.EventMessage? then l.published + [m.text] else l.published))
  }

  /** Plugin code takes a line off the pipe by itself. */
  function PluginTakes(b: Broker, t: Token): Broker
  {
    if t !in b.launches || !b.launches[t].alive || b.launches[t].toPlugin == [] then b
    else WithLaunch(b, t, b.launches[t].(toPlugin := b.launches[t].toPlugin[1..]))
  }

  function ClosesItsInput(b: Broker, t: Token): Broker
  {
    if t !in b.launches then b else WithLaunch(b, t, b.launches[t].(listening := false))
  }

  function ProcessDies(b: Broker, t: Token): Broker
  {
    if t !in b.launches then b else WithLaunch(b, t, b.launches[t].(alive := false))
  }

  /** What is left of a launch for a later run of the program: nothing runs and nothing is read. */
  function Gone(l: Launch): Launch
  {
    l.(alive := false, toPlugin := [], toHost := [])
  }

  /** The program ends and is started again: the plugin root and the saved registry survive. */
  function RestartProgram(b: Broker): Broker
  {
    Broker(b.disk, b.saved, b.saved, map[], map t | t in b.launches :: Gone(b.launches[t]), {}, None, false)
  }

  // ---------------------------------------------------------------- events and runs

  datatype Event =
    | SetGrantsCalled(id: Id, grants: set<string>, saves: bool)
    | SetEnabledCalled(id: Id, enabled: bool, saves: bool, token: Token, spawn: Spawn)
    | RestartCalled(id: Id, token: Token, spawn: Spawn)
    | LaunchCalled(id: Id, token: Token, spawn: Spawn)
    | StopCalled(id: Id)
    | InstallCalled(dirName: string, pkg: Package, suffix: string, fault: Fault, saves: bool)
    | BundledFound(name: Id, pkg: Package, copied: bool, saves: bool)
    | RemoveCalled(id: Id, left: Option<Package>, saves: bool)
    | SystemLogged(id: Id, entry: LogLine, saves: bool)
    | ProgramRestarts
    | StoppingSet(stopping: bool)
    | ExitSeen(dead: Token, logSaves: bool, countSaves: bool)
    | RelaunchDue(token: Token, spawn: Spawn)
    | SampleSent(to: Token)
    | HeartbeatLate(of: Token)
    | LineFromPlugin(from: Token)
    | PluginReadsLine(reader: Token, now: real)
    | PluginPublishesEvent(publisher: Token, text: string)
    | PluginPrintsLine(printer: Token, line: PluginMessage)
    | PluginTakesLine(taker: Token)
    | InputCloses(closed: Token)
    | ProcessEnds(ended: Token)

  /** Tokens and directory suffixes are drawn at random; an event reusing one does not happen. */
  predicate Possible(b: Broker, e: Event)
  {
    match e
    case SetEnabledCalled(_, _, _, t, _) => t !in b.launches
    case RestartCalled(_, t, _) => t !in b.launches
    case LaunchCalled(_, t, _) => t !in b.launches
    case RelaunchDue(t, _) => t !in b.launches
    case InstallCalled(_, pkg, suffix, _, _) =>
      StagingName(pkg.declaredId, suffix) !in b.disk && BackupName(pkg.declaredId, suffix) !in b.disk
    case ExitSeen(t, _, _) => t in b.launches && !b.launches[t].alive && b.pending.None?
    case _ => true
  }

  function Step(b: Broker, e: Event): Broker
  {
    if !Possible(b, e) then b
    else
      match e
      case SetGrantsCalled(id, grants, saves) => SetGrants(b, id, grants, saves).0
      case SetEnabledCalled(id, enabled, saves, t, spawn) => SetEnabled(b, id, enabled, saves, t, spawn).0
      case RestartCalled(id, t, spawn) => Restart(b, id, t, spawn).0
      case LaunchCalled(id, t, spawn) => LaunchPlugin(b, id, t, spawn).0
      case StopCalled(id) => StopPlugin(b, id)
      case InstallCalled(name, pkg, suffix, fault, saves) => InstallArchive(b, name, pkg, suffix, fault, saves).0
      case BundledFound(name, pkg, copied, saves) => InstallBundled(b, name, pkg, copied, saves)
      case RemoveCalled(id, left, saves) => RemovePlugin(b, id, left, saves).0
      case SystemLogged(id, line, saves) => Logged(b, id, line, saves)
      case ProgramRestarts => RestartProgram(b)
      case StoppingSet(flag) => b.(stopping := flag)
      case ExitSeen(t, logSaves, countSaves) => HandleExit(b, t, logSaves, countSaves).0
      case RelaunchDue(t, spawn) => Relaunch(b, t, spawn)
      case SampleSent(t) => SendSample(b, t)
      case HeartbeatLate(t) => MarkUnresponsive(b, t)
      case LineFromPlugin(t) => ReadStdout(b, t)
      case PluginReadsLine(t, now) => PluginReads(b, t, now)
      case PluginPublishesEvent(t, text) => PluginPublishes(b, t, text)
      case PluginPrintsLine(t, m) => PluginPrints(b, t, m)
      case PluginTakesLine(t) => PluginTakes(b, t)
      case InputCloses(t) => ClosesItsInput(b, t)
      case ProcessEnds(t) => ProcessDies(b, t)
  }

  function Run(b: Broker, es: seq<Event>): Broker
  {
    if es == [] then b else Step(Run(b, es[..|es| - 1]), es[|es| - 1])
  }

  /** A broker as constructed: packages and registry from earlier runs, nothing launched. */
  predicate Fresh(b: Broker)
  {
    && b.saved == b.registry && b.loose == {} && b.runtimes == map[] && b.launches == map[]
    && b.pending.None? && !b.stopping
  }
}
