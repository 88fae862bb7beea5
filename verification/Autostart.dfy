/**
 Autostart entries on Linux: the listing over the user's directory and the system directories, and
 turning an entry on or off by editing the user's directory only.
 */
module Autostart {
  import opened DesktopEntry

  /** The *.desktop files of one directory, by name. A missing directory has none. */
  type Directory = map<string, string>

  const OVERRIDE := "X-HardwareMon-Override"
  const GNOME := "X-GNOME-Autostart-enabled"
  const EXTENSION := ".desktop"

  /** One listed entry; level 0 is the user's directory, level k > 0 the k-th system directory. */
  datatype Listed = Listed(
    level: nat, filename: string, name: string, command: string, enabled: bool, generatedOverride: bool)

  // ---------------------------------------------------------------- reading one file

  function LowerChar(c: char): char
  {
    if 'A' <= c <= 'Z' then (c as int + 32) as char else c
  }

  function Lower(s: string): string
  {
    seq(|s|, i requires 0 <= i < |s| => LowerChar(s[i]))
  }

  function ValueOr(values: map<string, string>, key: string, default: string): string
  {
    if key in values then values[key] else default
  }

  predicate GnomeAllows(values: map<string, string>)
  {
    Lower(ValueOr(values, GNOME, "true")) != "false"
  }

  predicate IsEnabled(values: map<string, string>)
  {
    Lower(ValueOr(values, HIDDEN, "false")) != "true" && GnomeAllows(values)
  }

  /** The stem: the file name without its extension, which a name may not consist of alone. */
  function Stem(filename: string): string
  {
    if |filename| > |EXTENSION| && filename[|filename| - |EXTENSION|..] == EXTENSION then
      filename[..|filename| - |EXTENSION|]
    else filename
  }

  function EntryOf(level: nat, filename: string, text: string): Listed
  {
    var values := ReadEntry(text);
    Listed(level, filename, ValueOr(values, "Name", Stem(filename)), ValueOr(values, "Exec", "Unavailable"),
      IsEnabled(values), ValueOr(values, OVERRIDE, "") == "true")
  }

  // ---------------------------------------------------------------- the listing

  /** A file that gives no values at all is passed over. */
  predicate Speaks(dirs: seq<Directory>, level: nat, filename: string)
  {
    level < |dirs| && filename in dirs[level] && ReadEntry(dirs[level][filename]) != map[]
  }

  /** A system file is shadowed by a speaking file of the same name in an earlier directory. */
  predicate Shadowed(dirs: seq<Directory>, level: nat, filename: string)
  {
    exists k: nat :: k < level && Speaks(dirs, k, filename)
  }

  predicate IsListed(dirs: seq<Directory>, level: nat, filename: string)
  {
    Speaks(dirs, level, filename) && (level == 0 || !Shadowed(dirs, level, filename))
  }

  ghost predicate ListsExactly(entries: set<Listed>, dirs: seq<Directory>, levels: nat)
  {
    forall e :: e in entries <==>
      && e.level < levels && IsListed(dirs, e.level, e.filename)
      && e == EntryOf(e.level, e.filename, dirs[e.level][e.filename])
  }

  ghost predicate SeenExactly(seen: set<string>, dirs: seq<Directory>, levels: nat)
  {
    forall f :: f in seen <==> exists k: nat :: k < levels && Speaks(dirs, k, f)
  }

  ghost predicate ListedHere(dirs: seq<Directory>, level: nat, seenBefore: set<string>, done: set<string>, e: Listed)
    requires level < |dirs|
  {
    && e.level == level && e.filename in done && Speaks(dirs, level, e.filename)
    && (level == 0 || e.filename !in seenBefore)
    && e == EntryOf(level, e.filename, dirs[level][e.filename])
  }

  /** One directory: `todo` are the names still to look at. */
  method ListDirectory(dirs: seq<Directory>, level: nat, before: set<Listed>, seenBefore: set<string>)
    returns (entries: set<Listed>, seen: set<string>)
    requires level < |dirs|
    requires ListsExactly(before, dirs, level) && SeenExactly(seenBefore, dirs, level)
    ensures ListsExactly(entries, dirs, level + 1) && SeenExactly(seen, dirs, level + 1)
  {
    entries, seen := before, seenBefore;
    var todo := dirs[level].Keys;
    ghost var done: set<string> := {};
    while todo != {}
      invariant done + todo == dirs[level].Keys && done !! todo
      invariant forall f :: f in seen <==> f in seenBefore || (f in done && Speaks(dirs, level, f))
      invariant forall e :: e in entries <==> (e in before || ListedHere(dirs, level, seenBefore, done, e))
      decreases todo
    {
      var filename :| filename in todo;
      todo := todo - {filename};
      done := done + {filename};
      if level == 0 || filename !in seen {
        var values := ReadDesktopEntry(dirs[level][filename]);
        if values != map[] {
          seen := seen + {filename};
          entries := entries + {EntryOf(level, filename, dirs[level][filename])};
        }
      }
    }
    assert forall f :: f in seenBefore <==> Shadowed(dirs, level, f);
  }

  method ListApps(dirs: seq<Directory>) returns (entries: set<Listed>)
    ensures ListsExactly(entries, dirs, |dirs|)
  {
    hide IsListed, Speaks;
    entries := {};
    var seen: set<string> := {};
    for level := 0 to |dirs|
      invariant ListsExactly(entries, dirs, level) && SeenExactly(seen, dirs, level)
    {
      entries, seen := ListDirectory(dirs, level, entries, seen);
    }
  }

  // ---------------------------------------------------------------- turning an entry on or off

  function OverrideText(name: string, command: string): string
  {
    "[Desktop Entry]\n" + "Type=Application\n" + ("Name=" + name + "\n") + ("Exec=" + command + "\n")
    + "Hidden=true\n" + "X-HardwareMon-Override=true\n"
  }

  /** The user's directory after `_set_linux_startup`, and whether it went through. */
  function SetStartup(user: Directory, e: Listed, enabled: bool): (Directory, bool)
  {
    if e.level == 0 then
      if e.generatedOverride && enabled then (user - {e.filename}, true)
      else if e.filename !in user then (user, false)
      else (user[e.filename := WriteFlag(user[e.filename], enabled)], true)
    else if !enabled then (user[e.filename := OverrideText(e.name, e.command)], true)
    else if e.filename !in user then (user, true)
    else if ValueOr(ReadEntry(user[e.filename]), OVERRIDE, "") == "true" then (user - {e.filename}, true)
    else (user[e.filename := WriteFlag(user[e.filename], true)], true)
  }

  /** The user's directory, the only one ever written. */
  class StartupFolder {
    var user: Directory

    method Set(e: Listed, enabled: bool) returns (ok: bool)
      modifies this`user
      ensures (user, ok) == SetStartup(old(user), e, enabled)
    {
      hide WriteFlag, OverrideText, ReadEntry;
      if e.level == 0 {
        if e.generatedOverride && enabled {
          user := user - {e.filename};
          return true;
        }
        if e.filename !in user {
          return false;
        }
        var written := SetDesktopFlag(user[e.filename], enabled);
        user := user[e.filename := written];
        return true;
      }
      if enabled {
        if e.filename in user {
          var values := ReadDesktopEntry(user[e.filename]);
          if ValueOr(values, OVERRIDE, "") == "true" {
            user := user - {e.filename};
          } else {
            var written := SetDesktopFlag(user[e.filename], true);
            user := user[e.filename := written];
          }
        }
        return true;
      }
      user := user[e.filename := OverrideText(e.name, e.command)];
      return true;
    }
  }

  // ---------------------------------------------------------------- what an override says

  lemma {:induction false} ParseJoin(a: seq<string>, b: seq<string>, key: string)
    ensures key in ParseLines(a + b) <==> key in ParseLines(a) || key in ParseLines(b)
    ensures key in ParseLines(b) ==> ParseLines(a + b)[key] == ParseLines(b)[key]
    ensures key in ParseLines(a) && key !in ParseLines(b) ==> ParseLines(a + b)[key] == ParseLines(a)[key]
  {
    if b == [] {
      assert a + b == a;
    } else {
      assert (a + b)[..|a + b| - 1] == a + b[..|b| - 1];
      ParseJoin(a, b[..|b| - 1], key);
    }
  }

  lemma OneLineParses(key: string, value: string)
    requires Trimmed(key) && key != "" && key[0] != '#' && Trimmed(value)
    requires forall i :: 0 <= i < |key| ==> key[i] != '='
    requires BreakFree(key) && BreakFree(value)
    ensures ReadEntry(key + "=" + value + "\n") == map[key := value]
  {
    hide ParseLine, SplitLines;
    var line := key + "=" + value;
    KeyValueLine(key, value);
    assert BreakFree(line);
    SplitOneLine(line);
    assert [line][..0] == [];
    assert ParseLines([]) == map[];
  }

  lemma ReadJoin(a: string, b: string, key: string)
    ensures key in ReadEntry(a + "\n" + b) <==> key in ReadEntry(a + "\n") || key in ReadEntry(b)
    ensures key in ReadEntry(b) ==> ReadEntry(a + "\n" + b)[key] == ReadEntry(b)[key]
    ensures key in ReadEntry(a + "\n") && key !in ReadEntry(b) ==>
              ReadEntry(a + "\n" + b)[key] == ReadEntry(a + "\n")[key]
  {
    hide SplitLines, ParseLines;
    SplitAtLineFeed(a, b);
    ParseJoin(SplitLines(a + "\n"), SplitLines(b), key);
  }

  /** The line written for the name: it always speaks of a name, and of exactly this one when it can. */
  lemma NameLine(name: string)
    ensures "Name" in ReadEntry("Name=" + name + "\n")
    ensures Trimmed(name) && BreakFree(name) ==> ReadEntry("Name=" + name + "\n")["Name"] == name
    ensures !(Trimmed(name) && BreakFree(name)) ==> ReadEntry("Name=" + name + "\n")["Name"] != name
  {
    var text := "Name=" + name + "\n";
    if Trimmed(name) && BreakFree(name) {
      OneLineParses("Name", name);
      assert "Name" + "=" + name + "\n" == text;
    } else {
      NameSpeaks(name);
      SplitIsBreakFree(text);
      ValuesAreClean(SplitLines(text), "Name");
    }
  }

  lemma NameSpeaks(name: string)
    ensures "Name" in ReadEntry("Name=" + name + "\n")
  {
    hide ParseLine, SplitLines;
    var text := "Name=" + name + "\n";
    assert text[|text| - 1] == '\n' && IsBreak('\n');
    var i := FirstBreak(text);
    assert text[0] == 'N' && text[1] == 'a' && text[2] == 'm' && text[3] == 'e' && text[4] == '=';
    assert i >= 5 by {
      assert !IsBreak('N') && !IsBreak('a') && !IsBreak('m') && !IsBreak('e') && !IsBreak('=');
    }
    SplitStep(text, i);
    var lines := SplitLines(text);
    NamedLine(text[..i]);
    assert HasKey(lines[0], "Name");
    KeyOfSomeLine(lines, "Name");
  }

  lemma NamedLine(line: string)
    requires |line| >= 5 && line[..5] == "Name="
    ensures HasKey(line, "Name")
  {
    NamePrefix(line);
    StripRightKeeps(line, 4);
    NamePrefix(Strip(line));
    StripOfTrimmed("Name");
    hide Strip, IndexOf;
  }

  lemma NamePrefix(s: string)
    requires |s| >= 5 && s[..5] == "Name="
    ensures StripLeft(s) == s && s[0] != '#' && !IsBlank(s[4]) && s[..4] == "Name" && IndexOf(s, '=') == 4
  {
    assert s[0] == 'N' && s[1] == 'a' && s[2] == 'm' && s[3] == 'e' && s[4] == '=';
    hide StripRight;
  }

  /** Trailing blanks go, but nothing up to a character that is not blank. */
  lemma {:induction false} StripRightKeeps(s: string, k: nat)
    requires k < |s| && !IsBlank(s[k])
    ensures |StripRight(s)| > k && StripRight(s)[..k + 1] == s[..k + 1]
  {
    if IsBlank(s[|s| - 1]) {
      StripRightKeeps(s[..|s| - 1], k);
      assert s[..|s| - 1][..k + 1] == s[..k + 1];
    } else {
      assert StripRight(s) == s;
    }
  }

  predicate Clean(s: string)
  {
    Trimmed(s) && BreakFree(s)
  }

  const MARK_LINE := "X-HardwareMon-Override=true\n"
  const LAST_LINES := "Hidden=true\n" + MARK_LINE

  /** The lines behind the name line of an override. */
  function OverrideTail(command: string): string
  {
    "Exec=" + command + "\n" + LAST_LINES
  }

  /** A clean key and value on the first line, over whatever follows. */
  lemma FirstLineReads(key: string, value: string, rest: string, k: string)
    requires Trimmed(key) && key != "" && key[0] != '#' && Clean(value)
    requires BreakFree(key) && forall i :: 0 <= i < |key| ==> key[i] != '='
    ensures var text := key + "=" + value + "\n" + rest;
      && (k in ReadEntry(text) <==> k == key || k in ReadEntry(rest))
      && (k in ReadEntry(rest) ==> ReadEntry(text)[k] == ReadEntry(rest)[k])
      && (k == key && key !in ReadEntry(rest) ==> ReadEntry(text)[k] == value)
  {
    hide ReadEntry;
    OneLineParses(key, value);
    ReadJoin(key + "=" + value, rest, k);
  }

  lemma MarkLineReads()
    ensures ReadEntry(MARK_LINE) == map[OVERRIDE := "true"]
  {
    OneLineParses(OVERRIDE, "true");
    assert OVERRIDE + "=" + "true" + "\n" == MARK_LINE;
  }

  lemma LastLinesRead()
    ensures ReadEntry(LAST_LINES) == map[HIDDEN := "true", OVERRIDE := "true"]
  {
    hide ReadEntry, MARK_LINE;
    MarkLineReads();
    assert HIDDEN + "=" + "true" + "\n" + MARK_LINE == LAST_LINES;
    forall k ensures k in ReadEntry(LAST_LINES) <==> k == HIDDEN || k == OVERRIDE {
      FirstLineReads(HIDDEN, "true", MARK_LINE, k);
    }
    FirstLineReads(HIDDEN, "true", MARK_LINE, HIDDEN);
    FirstLineReads(HIDDEN, "true", MARK_LINE, OVERRIDE);
  }

  lemma TailReads(command: string)
    requires Clean(command)
    ensures var v := ReadEntry(OverrideTail(command));
      && "Exec" in v && v["Exec"] == command
      && HIDDEN in v && v[HIDDEN] == "true"
      && OVERRIDE in v && v[OVERRIDE] == "true"
      && "Name" !in v
  {
    hide ReadEntry, LAST_LINES;
    LastLinesRead();
    var v := map[HIDDEN := "true", OVERRIDE := "true"];
    assert "Exec" !in v && "Name" !in v;
    assert "Exec" + "=" + command + "\n" + LAST_LINES == OverrideTail(command);
    FirstLineReads("Exec", command, LAST_LINES, "Exec");
    FirstLineReads("Exec", command, LAST_LINES, HIDDEN);
    FirstLineReads("Exec", command, LAST_LINES, OVERRIDE);
    FirstLineReads("Exec", command, LAST_LINES, "Name");
  }

  /** What an override says when it is read: hidden, ours, the command, and the name when it is a clean one. */
  lemma OverrideReads(name: string, command: string)
    requires Clean(command)
    ensures var v := ReadEntry(OverrideText(name, command));
      && "Exec" in v && v["Exec"] == command
      && HIDDEN in v && v[HIDDEN] == "true"
      && OVERRIDE in v && v[OVERRIDE] == "true"
      && "Name" in v && (v["Name"] == name <==> Clean(name))
  {
    hide ReadEntry;
    TailReads(command);
    NameLine(name);
    var tail := OverrideTail(command);
    hide OverrideTail;
    var head := "[Desktop Entry]\n" + "Type=Application";
    var body := "Name=" + name + "\n" + tail;
    assert OverrideText(name, command) == head + "\n" + body by { OverrideParts(name, command); }
    hide OverrideText;
    ReadJoin("Name=" + name, tail, "Exec");
    ReadJoin("Name=" + name, tail, HIDDEN);
    ReadJoin("Name=" + name, tail, OVERRIDE);
    ReadJoin("Name=" + name, tail, "Name");
    ReadJoin(head, body, "Exec");
    ReadJoin(head, body, HIDDEN);
    ReadJoin(head, body, OVERRIDE);
    ReadJoin(head, body, "Name");
  }

  lemma OverrideParts(name: string, command: string)
    ensures OverrideText(name, command)
         == "[Desktop Entry]\n" + "Type=Application" + "\n" + ("Name=" + name + "\n" + OverrideTail(command))
  {
  }

  lemma CommandIsClean(text: string)
    ensures Clean(ValueOr(ReadEntry(text), "Exec", "Unavailable"))
  {
    if "Exec" in ReadEntry(text) {
      SplitIsBreakFree(text);
      ValuesAreClean(SplitLines(text), "Exec");
    }
  }

  // ---------------------------------------------------------------- off and on again

  lemma EnabledByFlag(v: map<string, string>, enabled: bool)
    requires HIDDEN in v && v[HIDDEN] == Wanted(enabled)
    ensures IsEnabled(v) <==> enabled && GnomeAllows(v)
  {
    hide GnomeAllows;
    assert Lower("true") == "true" && Lower("false") == "false";
  }

  lemma GnomeSame(v: map<string, string>, v': map<string, string>)
    requires GNOME in v <==> GNOME in v'
    requires GNOME in v ==> v[GNOME] == v'[GNOME]
    ensures GnomeAllows(v) <==> GnomeAllows(v')
  {
  }

  lemma UserFileShadows(user: Directory, system: seq<Directory>, f: string)
    requires f in user && ReadEntry(user[f]) != map[]
    ensures IsListed([user] + system, 0, f)
    ensures forall k: nat :: k > 0 ==> !IsListed([user] + system, k, f)
  {
    hide ReadEntry;
    assert Speaks([user] + system, 0, f);
  }

  /**
   Turning off a listed system entry, and then turning the override that the next listing shows on again,
   leaves the user's directory without a file of that name: it is restored exactly when there was none. In
   between the override is listed instead of the system entry, switched off, with the same command, and with
   the same name exactly when the name has no surrounding blanks and no line break.
   */
  lemma DisableThenEnableRestores(user: Directory, system: seq<Directory>, level: nat, f: string)
    requires level > 0 && IsListed([user] + system, level, f)
    ensures var e := EntryOf(level, f, ([user] + system)[level][f]);
      var off := SetStartup(user, e, false).0;
      && SetStartup(user, e, false).1
      && IsListed([off] + system, 0, f)
      && (forall k: nat :: k > 0 ==> !IsListed([off] + system, k, f))
      && var shown := EntryOf(0, f, off[f]);
      && !shown.enabled && shown.generatedOverride && shown.command == e.command
      && (shown.name == e.name <==> Clean(e.name))
      && SetStartup(off, shown, true) == (user - {f}, true)
      && (SetStartup(off, shown, true).0 == user <==> f !in user)
  {
    var e := EntryOf(level, f, ([user] + system)[level][f]);
    CommandIsClean(([user] + system)[level][f]);
    OverrideReads(e.name, e.command);
    var off := SetStartup(user, e, false).0;
    hide ReadEntry, OverrideText, IsEnabled, IsListed, GnomeAllows, Lower;
    EnabledByFlag(ReadEntry(off[f]), false);
    UserFileShadows(off, system, f);
    assert off - {f} == user - {f};
    assert f !in user ==> user - {f} == user;
  }

  const COMMENT_ONLY := "# mine\n"
  const SYSTEM_ENTRY := "Name=App\n"

  /** A user file that gives no values, and so hides nothing, is lost by switching the system entry off and on. */
  lemma SilentFileIsLost()
    ensures var user, system: Directory := map["app.desktop" := COMMENT_ONLY], map["app.desktop" := SYSTEM_ENTRY];
      var e := EntryOf(1, "app.desktop", SYSTEM_ENTRY);
      var off := SetStartup(user, e, false).0;
      && IsListed([user] + [system], 1, "app.desktop")
      && "app.desktop" in off
      && SetStartup(off, EntryOf(0, "app.desktop", off["app.desktop"]), true).0 == map[]
  {
    var user, system: Directory := map["app.desktop" := COMMENT_ONLY], map["app.desktop" := SYSTEM_ENTRY];
    SilentAndSpeaking();
    var dirs := [user] + [system];
    hide ReadEntry, COMMENT_ONLY, SYSTEM_ENTRY, SetStartup, EntryOf;
    assert dirs[0] == user && dirs[1] == system;
    assert IsListed(dirs, 1, "app.desktop");
    DisableThenEnableRestores(user, [system], 1, "app.desktop");
    assert user - {"app.desktop"} == map[];
    OffHasFile(user, EntryOf(1, "app.desktop", SYSTEM_ENTRY), SYSTEM_ENTRY);
  }

  lemma OffHasFile(user: Directory, e: Listed, text: string)
    requires e == EntryOf(1, "app.desktop", text)
    ensures "app.desktop" in SetStartup(user, e, false).0
  {
  }

  lemma SilentAndSpeaking()
    ensures ReadEntry(COMMENT_ONLY) == map[] && ReadEntry(SYSTEM_ENTRY) != map[]
  {
    hide ReadEntry, COMMENT_ONLY, SYSTEM_ENTRY;
    CommentIsSilent();
    EntrySpeaks();
  }

  lemma CommentIsSilent()
    ensures ReadEntry(COMMENT_ONLY) == map[]
  {
    hide ReadEntry;
    var line := "# mine";
    assert line + "\n" == COMMENT_ONLY;
    CommentSaysNothing(line);
  }

  lemma EntrySpeaks()
    ensures ReadEntry(SYSTEM_ENTRY) != map[]
  {
    hide ReadEntry;
    OneLineParses("Name", "App");
    assert "Name" + "=" + "App" + "\n" == SYSTEM_ENTRY;
    assert "Name" in ReadEntry(SYSTEM_ENTRY);
  }

  lemma CommentSaysNothing(line: string)
    requires BreakFree(line) && Trimmed(line) && line != "" && line[0] == '#'
    ensures ReadEntry(line + "\n") == map[]
  {
    SplitOneLine(line);
    StripOfTrimmed(line);
    assert ParseLine(line).None?;
    hide SplitLines, ParseLine;
    assert [line][..0] == [];
    assert ParseLines([]) == map[];
    assert ParseLines([line]) == Put(ParseLines([]), ParseLine(line));
  }

  /** The same two steps leave the listing of every other file name as it was. */
  lemma OthersListedAsBefore(user: Directory, after: Directory, system: seq<Directory>,
      f: string, g: string, level: nat)
    requires g != f && forall h :: h != f ==> (h in after <==> h in user) && (h in user ==> after[h] == user[h])
    ensures IsListed([after] + system, level, g) <==> IsListed([user] + system, level, g)
    ensures IsListed([user] + system, level, g) ==> ([after] + system)[level][g] == ([user] + system)[level][g]
  {
    hide ReadEntry;
    forall k: nat ensures Speaks([after] + system, k, g) <==> Speaks([user] + system, k, g) {
    }
    if k: nat :| k < level && Speaks([after] + system, k, g) {
      assert Speaks([user] + system, k, g);
    }
    if k: nat :| k < level && Speaks([user] + system, k, g) {
      assert Speaks([after] + system, k, g);
    }
  }

  /**
   Editing a user's own file, whatever it holds: when the flag decides, switching off takes effect and
   switching on takes effect unless the file's GNOME key forbids it; otherwise the entry is listed on or
   off as before.
   */
  lemma ToggleTakesEffect(text: string, enabled: bool)
    ensures IsEnabled(ReadEntry(WriteFlag(text, enabled))) <==>
            if FlagDecides(SplitLines(text)) then enabled && GnomeAllows(ReadEntry(text))
            else IsEnabled(ReadEntry(text))
  {
    hide SplitLines, ParseLines, SetFlag, WriteFlag, FlagDecides;
    ReadAfterWrite(text, enabled);
    WrittenValue(SplitLines(text), enabled);
    OtherKeysUnchanged(SplitLines(text), enabled, GNOME);
    GnomeSame(ReadEntry(text), ReadEntry(WriteFlag(text, enabled)));
    hide GnomeAllows;
    if FlagDecides(SplitLines(text)) {
      hide IsEnabled;
      EnabledByFlag(ReadEntry(WriteFlag(text, enabled)), enabled);
    }
  }

  /** A file that gives no values gives, once it is written to, the Hidden key alone. */
  lemma SilentWritten(text: string, enabled: bool)
    requires ReadEntry(text) == map[]
    ensures ReadEntry(WriteFlag(text, enabled)) == map[HIDDEN := Wanted(enabled)]
  {
    hide SplitLines, ParseLines, SetFlag, WriteFlag, FlagDecides;
    ReadAfterWrite(text, enabled);
    WrittenValue(SplitLines(text), enabled);
    forall k | k != HIDDEN ensures k !in ReadEntry(WriteFlag(text, enabled)) {
      OtherKeysUnchanged(SplitLines(text), enabled, k);
    }
  }

  lemma ShownOn(level: nat, filename: string, text: string)
    requires ReadEntry(text) == map[HIDDEN := "false"]
    ensures EntryOf(level, filename, text) == Listed(level, filename, Stem(filename), "Unavailable", true, false)
  {
    hide ReadEntry, Stem;
    assert Lower("false") == "false" && Lower("true") == "true";
    assert OVERRIDE != HIDDEN && GNOME != HIDDEN && "Name" != HIDDEN && "Exec" != HIDDEN;
  }

  lemma EnabledSilent(user: Directory, level: nat, f: string, text: string)
    requires level > 0 && f in user && ReadEntry(user[f]) == map[]
    ensures SetStartup(user, EntryOf(level, f, text), true) == (user[f := WriteFlag(user[f], true)], true)
  {
    hide ReadEntry, WriteFlag, IsEnabled;
  }

  /**
   Switching a listed system entry on never touches what it says. Without a user file of its name the call
   succeeds and changes nothing, so an entry that is off stays off. With one, which then gives no values, the
   file is written to: from then on it stands in for the system entry, switched on, under the stem of its
   name and without a command.
   */
  lemma EnablingSystemEntry(user: Directory, system: seq<Directory>, level: nat, f: string)
    requires level > 0 && IsListed([user] + system, level, f)
    ensures var e := EntryOf(level, f, ([user] + system)[level][f]);
      var (after, ok) := SetStartup(user, e, true);
      && ok && (f !in user ==> after == user)
      && (f in user ==>
            && f in after && after == user[f := after[f]]
            && IsListed([after] + system, 0, f)
            && (forall k: nat :: k > 0 ==> !IsListed([after] + system, k, f))
            && EntryOf(0, f, after[f]) == Listed(0, f, Stem(f), "Unavailable", true, false))
  {
    if f in user {
      assert ReadEntry(user[f]) == map[] by {
        hide ReadEntry;
        assert !Speaks([user] + system, 0, f);
      }
      SilentWritten(user[f], true);
      hide ReadEntry, WriteFlag, IsListed;
      var written := WriteFlag(user[f], true);
      ShownOn(0, f, written);
      assert HIDDEN in ReadEntry(written);
      hide EntryOf;
      UserFileShadows(user[f := written], system, f);
      EnabledSilent(user, level, f, ([user] + system)[level][f]);
    }
  }

  // ---------------------------------------------------------------- what an entry shows, and the user's own

  /** s is this lower-case word, written in any mixture of cases. */
  predicate Spells(s: string, word: string)
  {
    |s| == |word| && forall i :: 0 <= i < |s| ==>
      s[i] == word[i] || ('A' <= s[i] <= 'Z' && s[i] as int + 32 == word[i] as int)
  }

  lemma SpellsLower(s: string, word: string)
    requires forall i :: 0 <= i < |word| ==> 'a' <= word[i] <= 'z'
    ensures Lower(s) == word <==> Spells(s, word)
  {
    assert forall i :: 0 <= i < |s| ==> Lower(s)[i] == LowerChar(s[i]);
    if Spells(s, word) {
      forall i | 0 <= i < |s| ensures Lower(s)[i] == word[i] {
        assert s[i] == word[i] || ('A' <= s[i] <= 'Z' && s[i] as int + 32 == word[i] as int);
      }
    }
    if Lower(s) == word {
      assert |Lower(s)| == |s|;
      assert forall i :: 0 <= i < |s| ==> LowerChar(s[i]) == word[i];
    }
  }

  /** An entry is on unless its Hidden value spells true or its GNOME value spells false. */
  lemma EnabledExactly(v: map<string, string>)
    ensures IsEnabled(v) <==>
              && !("Hidden" in v && Spells(v["Hidden"], "true"))
              && !("X-GNOME-Autostart-enabled" in v && Spells(v["X-GNOME-Autostart-enabled"], "false"))
  {
    hide Lower;
    SpellsLower(ValueOr(v, HIDDEN, "false"), "true");
    SpellsLower(ValueOr(v, GNOME, "true"), "false");
    assert "false"[0] != "true"[0];
    assert !Spells("false", "true") && !Spells("true", "false");
  }

  /** The name and command listed are the file's own, or its bare name and no command. */
  lemma EntryShows(level: nat, stem: string, text: string)
    requires stem != ""
    ensures var v := ReadEntry(text);
      var e := EntryOf(level, stem + ".desktop", text);
      && e.level == level && e.filename == stem + ".desktop"
      && e.name == (if "Name" in v then v["Name"] else stem)
      && e.command == (if "Exec" in v then v["Exec"] else "Unavailable")
      && (e.generatedOverride <==> "X-HardwareMon-Override" in v && v["X-HardwareMon-Override"] == "true")
  {
    hide ReadEntry, IsEnabled;
    var f := stem + ".desktop";
    assert f[|f| - 8..] == ".desktop" && f[..|f| - 8] == stem;
  }

  lemma KeptSpeaking(text: string, enabled: bool)
    ensures ReadEntry(WriteFlag(text, enabled)) != map[]
    ensures forall k :: k != HIDDEN ==>
              ValueOr(ReadEntry(WriteFlag(text, enabled)), k, "") == ValueOr(ReadEntry(text), k, "")
              && (k in ReadEntry(WriteFlag(text, enabled)) <==> k in ReadEntry(text))
  {
    hide SplitLines, ParseLines, SetFlag, WriteFlag;
    ReadAfterWrite(text, enabled);
    WrittenValue(SplitLines(text), enabled);
    forall k | k != HIDDEN
      ensures ValueOr(ReadEntry(WriteFlag(text, enabled)), k, "") == ValueOr(ReadEntry(text), k, "")
      ensures k in ReadEntry(WriteFlag(text, enabled)) <==> k in ReadEntry(text)
    {
      OtherKeysUnchanged(SplitLines(text), enabled, k);
    }
  }

  lemma SameShown(f: string, text: string, text': string)
    requires forall k :: k != HIDDEN ==>
               ValueOr(ReadEntry(text'), k, "") == ValueOr(ReadEntry(text), k, "")
               && (k in ReadEntry(text') <==> k in ReadEntry(text))
    ensures EntryOf(0, f, text').name == EntryOf(0, f, text).name
    ensures EntryOf(0, f, text').command == EntryOf(0, f, text).command
    ensures EntryOf(0, f, text').generatedOverride <==> EntryOf(0, f, text).generatedOverride
  {
    hide ReadEntry, IsEnabled, Stem;
    assert "Name" != HIDDEN && "Exec" != HIDDEN && OVERRIDE != HIDDEN;
  }

  /**
   Switching a user's own listed entry, unless it is an override that is switched on: only its file changes, and
   it is listed with the same name and command. It is on afterwards exactly when that was asked for and its GNOME
   key allows it; or, where the flag does not decide, when it was on before.
   */
  lemma OwnEntrySwitched(user: Directory, system: seq<Directory>, f: string, enabled: bool)
    requires f in user && IsListed([user] + system, 0, f)
    requires !(EntryOf(0, f, user[f]).generatedOverride && enabled)
    ensures var e := EntryOf(0, f, user[f]);
      var (after, ok) := SetStartup(user, e, enabled);
      && ok && f in after && after == user[f := after[f]]
      && IsListed([after] + system, 0, f)
      && (forall k: nat :: k > 0 ==> !IsListed([after] + system, k, f))
      && var shown := EntryOf(0, f, after[f]);
      && shown.name == e.name && shown.command == e.command && shown.generatedOverride == e.generatedOverride
      && (shown.enabled <==>
            if FlagDecides(SplitLines(user[f])) then enabled && GnomeAllows(ReadEntry(user[f])) else e.enabled)
  {
    var e := EntryOf(0, f, user[f]);
    var written := WriteFlag(user[f], enabled);
    KeptSpeaking(user[f], enabled);
    SameShown(f, user[f], written);
    ToggleTakesEffect(user[f], enabled);
    OwnFileWritten(user, e, f, enabled);
    hide ReadEntry, WriteFlag, IsListed, FlagDecides, SplitLines, GnomeAllows, IsEnabled, Stem, SetStartup;
    UserFileShadows(user[f := written], system, f);
  }

  lemma OwnFileWritten(user: Directory, e: Listed, f: string, enabled: bool)
    requires e.level == 0 && e.filename == f && f in user && !(e.generatedOverride && enabled)
    ensures SetStartup(user, e, enabled) == (user[f := WriteFlag(user[f], enabled)], true)
  {
    hide WriteFlag;
  }

  /** An override that is switched on goes; any other own entry whose file is missing cannot be switched. */
  lemma OwnEntryGone(user: Directory, e: Listed, enabled: bool)
    requires e.level == 0
    ensures e.generatedOverride && enabled ==> SetStartup(user, e, enabled) == (user - {e.filename}, true)
    ensures !(e.generatedOverride && enabled) && e.filename !in user ==> SetStartup(user, e, enabled) == (user, false)
  {
    hide WriteFlag;
  }

  const GNOME_OFF := "X-GNOME-Autostart-enabled=false\n"
  const HIDDEN_TWICE := "Hidden=true\n" + "Hidden=true\n"

  /** An entry its GNOME key switches off stays off when it is switched on. */
  lemma GnomeKeyStaysOff()
    ensures FlagDecides(SplitLines(GNOME_OFF)) && !IsEnabled(ReadEntry(WriteFlag(GNOME_OFF, true)))
  {
    hide ReadEntry, WriteFlag, SplitLines, FlagDecides, IsEnabled, GNOME_OFF;
    GnomeOffReads();
    GnomeForbids(ReadEntry(GNOME_OFF));
    ToggleTakesEffect(GNOME_OFF, true);
  }

  lemma GnomeOffReads()
    ensures ReadEntry(GNOME_OFF) == map[GNOME := "false"] && FlagDecides(SplitLines(GNOME_OFF))
  {
    hide ReadEntry, SplitLines, FlagDecides;
    assert GNOME + "=" + "false" + "\n" == GNOME_OFF;
    OneLineParses(GNOME, "false");
    OneLineDecides(GNOME + "=" + "false");
  }

  lemma GnomeForbids(v: map<string, string>)
    requires v == map[GNOME := "false"]
    ensures !GnomeAllows(v)
  {
    assert Lower("false") == "false";
  }

  lemma OneLineDecides(line: string)
    requires BreakFree(line) && Trimmed(line) && !("Hidden=" <= line)
    ensures FlagDecides(SplitLines(line + "\n"))
  {
    hide SplitLines;
    SplitOneLine(line);
    StripOfTrimmed(line);
    NoFlag([line]);
  }

  /** An entry with two Hidden lines stays off when it is switched on. */
  lemma SecondHiddenLineStaysOff()
    ensures !FlagDecides(SplitLines(HIDDEN_TWICE)) && !IsEnabled(ReadEntry(WriteFlag(HIDDEN_TWICE, true)))
  {
    hide SplitLines, ParseLines, SetFlag, WriteFlag, FlagDecides, ReadEntry, IsEnabled, HIDDEN_TWICE;
    TwiceSplits();
    TwoHiddenLinesStay();
    ReadAfterWrite(HIDDEN_TWICE, true);
    HiddenIsOff(ReadEntry(WriteFlag(HIDDEN_TWICE, true)));
  }

  lemma HiddenIsOff(v: map<string, string>)
    requires HIDDEN in v && v[HIDDEN] == "true"
    ensures !IsEnabled(v)
  {
    assert Lower("true") == "true";
  }

  lemma TwiceSplits()
    ensures SplitLines(HIDDEN_TWICE) == ["Hidden=true", "Hidden=true"]
  {
    hide SplitLines;
    var line := "Hidden=true";
    assert line + "\n" + (line + "\n") == HIDDEN_TWICE;
    TwoLines(line);
  }

  lemma TwoLines(line: string)
    requires BreakFree(line)
    ensures SplitLines(line + "\n" + (line + "\n")) == [line, line]
  {
    SplitAtLineFeed(line, line + "\n");
    SplitOneLine(line);
  }
}
