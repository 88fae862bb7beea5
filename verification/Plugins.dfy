/**
 Plugin packages, manifests, the registry, and both ends of the plugin protocol.
 */
module Plugins {
  import opened Options

  type Id = string
  type Token = nat

  const API_VERSION := 1
  const KNOWN_CAPABILITIES: set<string> := {
    "telemetry.read", "inventory.read", "history.read", "events.publish",
    "network.listen", "network.connect", "settings.read"}

  // ---------------------------------------------------------------- packages and manifests

  /** A plugin directory: what its manifest says, whether its entry point is usable, and its other content. */
  datatype Package = Package(
    readable: bool, declaredId: string, apiVersion: int, capabilities: set<string>,
    entrypointOk: bool, content: string)

  datatype Manifest = Manifest(id: Id, capabilities: set<string>)

  predicate IdStart(c: char)
  {
    'a' <= c <= 'z' || '0' <= c <= '9'
  }

  predicate IdChar(c: char)
  {
    IdStart(c) || c == '.' || c == '_' || c == '-'
  }

  /** The pattern [a-z0-9][a-z0-9._-]{2,79} */
  predicate ValidId(s: string)
  {
    3 <= |s| <= 80 && IdStart(s[0]) && forall i :: 0 <= i < |s| ==> IdChar(s[i])
  }

  /** Reading the manifest of the directory called `name`. */
  function ReadManifest(name: string, pkg: Package): Option<Manifest>
  {
    if !pkg.readable then None
    else if !ValidId(pkg.declaredId) || name != pkg.declaredId then None
    else if pkg.apiVersion != API_VERSION then None
    else if !(pkg.capabilities <= KNOWN_CAPABILITIES) then None
    else if !pkg.entrypointOk then None
    else Some(Manifest(pkg.declaredId, pkg.capabilities))
  }

  // ---------------------------------------------------------------- the registry

  datatype LogLine = LogLine(level: string, text: string)

  /** A registry record; absent keys read as these defaults. */
  datatype Entry = Entry(
    enabled: bool, grants: set<string>, restartCount: nat, bundled: bool, recentLogs: seq<LogLine>)

  const NEW_ENTRY := Entry(false, {}, 0, false, [])

  // ---------------------------------------------------------------- the protocol

  datatype HostMessage =
    | Hello(token: Token, grants: set<string>)
    | Shutdown(token: Token)
    | Sample(token: Token)

  datatype PluginMessage =
    | Garbled
    | Ready(token: Token)
    | Heartbeat(token: Token)
    | LogMessage(token: Token, level: string, text: string)
    | EventMessage(token: Token, text: string)
    | Unknown(token: Token)

  const HEARTBEAT_SECONDS := 5.0

  /** The SDK object inside a plugin process; `greeted` records that a hello was handled. */
  datatype Sdk = Sdk(token: Token, grants: set<string>, running: bool, lastHeartbeat: real, greeted: bool)

  function NewSdk(token: Token): Sdk
  {
    Sdk(token, {}, true, 0.0, false)
  }

  /** One round of the SDK's read loop: the new state and the lines it writes. */
  function SdkRead(s: Sdk, m: HostMessage, now: real): (Sdk, seq<PluginMessage>)
  {
    if m.token != s.token then (s, [])
    else if m.Shutdown? then (s.(running := false), [])
    else
      var s1 := if m.Hello? then s.(grants := m.grants, greeted := true) else s;
      var out := if m.Hello? then [Ready(s.token)] else [];
      if now - s.lastHeartbeat >= HEARTBEAT_SECONDS then
        (s1.(lastHeartbeat := now), out + [Heartbeat(s.token)])
      else
        (s1, out)
  }

  /** `publish_event`: refused without the grant. */
  function SdkPublish(s: Sdk, text: string): seq<PluginMessage>
  {
    if "events.publish" in s.grants then [EventMessage(s.token, text)] else []
  }

  /** The whole loop over the lines of standard input. */
  function SdkRun(s: Sdk, lines: seq<(HostMessage, real)>): (Sdk, seq<PluginMessage>)
    decreases |lines|
  {
    if lines == [] || !s.running then (s, [])
    else
      var (s1, out) := SdkRead(s, lines[0].0, lines[0].1);
      var (s2, rest) := SdkRun(s1, lines[1..]);
      (s2, out + rest)
  }

  /**
   A line with a foreign token is passed over; a shutdown stops the loop and is not answered; a hello sets the
   grants and is answered; and a heartbeat follows any line but a shutdown when the last one is five seconds old.
   */
  lemma SdkReadExactly(s: Sdk, m: HostMessage, now: real)
    ensures var (after, out) := SdkRead(s, m, now);
      var own := m.token == s.token;
      var beats := own && !m.Shutdown? && now - s.lastHeartbeat >= 5.0;
      && after.token == s.token && (after.running <==> s.running && !(own && m.Shutdown?))
      && after.grants == (if own && m.Hello? then m.grants else s.grants)
      && (after.greeted <==> s.greeted || (own && m.Hello?))
      && after.lastHeartbeat == (if beats then now else s.lastHeartbeat)
      && out == (if own && m.Hello? then [Ready(s.token)] else []) + (if beats then [Heartbeat(s.token)] else [])
  {
  }

  /** The loop handles every line up to a shutdown, in order, and none behind it. */
  lemma {:induction false} SdkRunLast(s: Sdk, lines: seq<(HostMessage, real)>, m: HostMessage, now: real)
    ensures var (so, out) := SdkRun(s, lines);
      SdkRun(s, lines + [(m, now)])
      == if !so.running then (so, out) else (SdkRead(so, m, now).0, out + SdkRead(so, m, now).1)
    decreases |lines|
  {
    var all := lines + [(m, now)];
    if lines == [] {
      assert all == [(m, now)] && all[1..] == [];
      assert SdkRead(s, m, now).1 + [] == SdkRead(s, m, now).1 == [] + SdkRead(s, m, now).1;
    } else if s.running {
      var (s1, first) := SdkRead(s, lines[0].0, lines[0].1);
      assert all[0] == lines[0] && all[1..] == lines[1..] + [(m, now)];
      SdkRunLast(s1, lines[1..], m, now);
      hide SdkRead;
      var (so, out) := SdkRun(s1, lines[1..]);
      assert first + (out + SdkRead(so, m, now).1) == (first + out) + SdkRead(so, m, now).1;
    }
  }

  class HardwareMonPlugin {
    const token: Token
    var grants: set<string>
    var running: bool
    var lastHeartbeat: real
    ghost var greeted: bool
    var output: seq<PluginMessage>

    ghost function State(): Sdk
      reads this
    {
      Sdk(token, grants, running, lastHeartbeat, greeted)
    }

    constructor (token: Token)
      ensures State() == NewSdk(token) && output == []
    {
      this.token := token;
      grants, running, lastHeartbeat, greeted, output := {}, true, 0.0, false, [];
    }

    /** One line of input; says whether the loop goes on. */
    method HandleLine(m: HostMessage, now: real)
      modifies this
      ensures State() == SdkRead(old(State()), m, now).0
      ensures output == old(output) + SdkRead(old(State()), m, now).1
    {
      if m.token != token {
        return;
      }
      match m {
        case Hello(_, granted) =>
          grants := granted;
          greeted := true;
          output := output + [Ready(token)];
        case Shutdown(_) =>
          running := false;
          return;
        case Sample(_) =>
      }
      if now - lastHeartbeat >= HEARTBEAT_SECONDS {
        output := output + [Heartbeat(token)];
        lastHeartbeat := now;
      }
    }

    method PublishEvent(text: string) returns (permitted: bool)
      modifies this`output
      ensures permitted <==> "events.publish" in grants
      ensures output == old(output) + SdkPublish(State(), text)
    {
      permitted := "events.publish" in grants;
      if permitted {
        output := output + [EventMessage(token, text)];
      }
    }

    method Run(lines: seq<(HostMessage, real)>)
      requires running
      modifies this
      ensures State() == SdkRun(old(State()), lines).0
      ensures output == old(output) + SdkRun(old(State()), lines).1
    {
      var i := 0;
      while i < |lines| && running
        invariant 0 <= i <= |lines|
        invariant SdkRun(old(State()), lines).0 == SdkRun(State(), lines[i..]).0
        invariant old(output) + SdkRun(old(State()), lines).1 == output + SdkRun(State(), lines[i..]).1
      {
        assert lines[i..][0] == lines[i] && lines[i..][1..] == lines[i + 1..];
        HandleLine(lines[i].0, lines[i].1);
        i := i + 1;
      }
    }
  }

  /** A lower-case letter or a digit, by its code. */
  predicate Alphanumeric(c: char)
  {
    97 <= c as int <= 122 || 48 <= c as int <= 57
  }

  /** An identifier has three to eighty characters: letters and digits, and behind the first also dots, dashes, bars. */
  lemma ValidIdExactly(s: string)
    ensures ValidId(s) <==>
              && 3 <= |s| <= 80 && Alphanumeric(s[0])
              && forall i :: 0 < i < |s| ==> Alphanumeric(s[i]) || s[i] == '.' || s[i] == '_' || s[i] == '-'
  {
    forall i | 0 <= i < |s| ensures IdStart(s[i]) <==> Alphanumeric(s[i]) {
      assert 'a' as int == 97 && 'z' as int == 122 && '0' as int == 48 && '9' as int == 57;
    }
    hide IdStart, Alphanumeric;
  }
}
