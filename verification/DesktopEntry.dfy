/**
 Desktop entry files as lines of text: the parser, the in-place editor of the Hidden key, and how
 they fit together. Texts are as Python reads them; '\r' can only stem from a file name written into one.
 */
module DesktopEntry {
  import opened Options

  const HIDDEN := "Hidden"

  // ---------------------------------------------------------------- characters and lines

  /** Characters str.strip() removes. */
  predicate IsBlank(c: char)
  {
    var n := c as int;
    9 <= n <= 13 || 28 <= n <= 32 || n == 0x85 || n == 0xA0 || n == 0x1680 || 0x2000 <= n <= 0x200A
    || n == 0x2028 || n == 0x2029 || n == 0x202F || n == 0x205F || n == 0x3000
  }

  /** Characters str.splitlines() splits at. */
  predicate IsBreak(c: char)
  {
    var n := c as int;
    10 <= n <= 13 || 28 <= n <= 30 || n == 0x85 || n == 0x2028 || n == 0x2029
  }

  predicate BreakFree(s: string)
  {
    forall i :: 0 <= i < |s| ==> !IsBreak(s[i])
  }

  predicate Trimmed(s: string)
  {
    s == "" || (!IsBlank(s[0]) && !IsBlank(s[|s| - 1]))
  }

  function StripLeft(s: string): string
  {
    if s == "" || !IsBlank(s[0]) then s else StripLeft(s[1..])
  }

  function StripRight(s: string): string
  {
    if s == "" || !IsBlank(s[|s| - 1]) then s else StripRight(s[..|s| - 1])
  }

  function Strip(s: string): string
  {
    StripRight(StripLeft(s))
  }

  /** The position of the first c in s, or |s|. */
  function IndexOf(s: string, c: char): (i: nat)
    ensures i <= |s|
    ensures i < |s| ==> s[i] == c
    ensures forall k :: 0 <= k < i ==> s[k] != c
  {
    if s == "" || s[0] == c then 0 else 1 + IndexOf(s[1..], c)
  }

  function FirstBreak(s: string): (i: nat)
    ensures i <= |s|
    ensures i < |s| ==> IsBreak(s[i])
    ensures forall k :: 0 <= k < i ==> !IsBreak(s[k])
  {
    if s == "" || IsBreak(s[0]) then 0 else 1 + FirstBreak(s[1..])
  }

  /** The lines of a text; a break at the end opens no further line. */
  function SplitLines(text: string): (lines: seq<string>)
    decreases |text|
  {
    if text == "" then []
    else
      var i := FirstBreak(text);
      if i == |text| then [text] else [text[..i]] + SplitLines(text[i + 1..])
  }

  /** Every line, each with a line feed behind it. */
  function JoinLines(lines: seq<string>): string
  {
    if lines == [] then "" else lines[0] + "\n" + JoinLines(lines[1..])
  }

  predicate AllBreakFree(lines: seq<string>)
  {
    forall i :: 0 <= i < |lines| ==> BreakFree(lines[i])
  }

  lemma {:induction false} SplitIsBreakFree(text: string)
    ensures AllBreakFree(SplitLines(text))
    decreases |text|
  {
    if text != "" {
      var i := FirstBreak(text);
      if i < |text| {
        SplitIsBreakFree(text[i + 1..]);
      }
    }
  }

  lemma FirstBreakAt(s: string, i: nat)
    requires i < |s| && IsBreak(s[i])
    requires forall k :: 0 <= k < i ==> !IsBreak(s[k])
    ensures FirstBreak(s) == i
  {
  }

  /** The first line ends at the first break. */
  lemma SplitStep(s: string, i: nat)
    requires i < |s| && IsBreak(s[i])
    requires forall k :: 0 <= k < i ==> !IsBreak(s[k])
    ensures SplitLines(s) == [s[..i]] + SplitLines(s[i + 1..])
  {
    FirstBreakAt(s, i);
  }

  /** A line feed always ends the line it stands in. */
  lemma {:induction false} SplitAtLineFeed(x: string, t: string)
    ensures SplitLines(x + "\n" + t) == SplitLines(x + "\n") + SplitLines(t)
    decreases |x|
  {
    hide SplitLines;
    var whole, head := x + "\n" + t, x + "\n";
    assert head[|x|] == '\n' && IsBreak('\n');
    var i := FirstBreak(head);
    assert forall k :: 0 <= k <= i ==> whole[k] == head[k];
    SplitStep(head, i);
    SplitStep(whole, i);
    assert whole[..i] == head[..i];
    if i == |x| {
      assert whole[i + 1..] == t;
      assert head[i + 1..] == "";
      NoLines();
    } else {
      SplitAtLineFeed(x[i + 1..], t);
      assert whole[i + 1..] == x[i + 1..] + "\n" + t;
      assert head[i + 1..] == x[i + 1..] + "\n";
    }
  }

  lemma NoLines()
    ensures SplitLines("") == []
  {
  }

  lemma SplitOneLine(line: string)
    requires BreakFree(line)
    ensures SplitLines(line + "\n") == [line]
  {
    var s := line + "\n";
    assert s[..|line|] == line && s[|line|] == '\n';
    SplitStep(s, |line|);
    assert s[|line| + 1..] == "";
  }

  /** What is joined can be split again. */
  lemma {:induction false} SplitOfJoin(lines: seq<string>)
    requires AllBreakFree(lines)
    ensures SplitLines(JoinLines(lines)) == lines
  {
    hide SplitLines, BreakFree;
    if lines == [] {
      NoLines();
    } else {
      SplitOfJoin(lines[1..]);
      SplitAtLineFeed(lines[0], JoinLines(lines[1..]));
      SplitOneLine(lines[0]);
      assert lines == [lines[0]] + lines[1..];
    }
  }

  // ---------------------------------------------------------------- stripping

  lemma {:induction false} StripOfTrimmed(s: string)
    requires Trimmed(s)
    ensures Strip(s) == s
  {
  }

  lemma {:induction false} StripLeftShape(s: string)
    ensures var r := StripLeft(s); r == "" || !IsBlank(r[0])
    ensures BreakFree(s) ==> BreakFree(StripLeft(s))
  {
    if s != "" && IsBlank(s[0]) {
      StripLeftShape(s[1..]);
    }
  }

  lemma {:induction false} StripRightShape(s: string)
    ensures var r := StripRight(s); r <= s && (r == "" || !IsBlank(r[|r| - 1]))
  {
    if s != "" && IsBlank(s[|s| - 1]) {
      StripRightShape(s[..|s| - 1]);
    }
  }

  lemma StripShape(s: string)
    ensures Trimmed(Strip(s))
    ensures BreakFree(s) ==> BreakFree(Strip(s))
  {
    StripLeftShape(s);
    StripRightShape(StripLeft(s));
  }

  // ---------------------------------------------------------------- the parser

  datatype Pair = Pair(key: string, value: string)

  function ParseLine(raw: string): Option<Pair>
  {
    var line := Strip(raw);
    if line == "" || line[0] == '#' then None
    else
      var i := IndexOf(line, '=');
      if i == |line| then None else Some(Pair(Strip(line[..i]), Strip(line[i + 1..])))
  }

  function Put(values: map<string, string>, p: Option<Pair>): map<string, string>
  {
    if p.None? then values else values[p.value.key := p.value.value]
  }

  function ParseLines(lines: seq<string>): map<string, string>
  {
    if lines == [] then map[] else Put(ParseLines(lines[..|lines| - 1]), ParseLine(lines[|lines| - 1]))
  }

  function ReadEntry(text: string): map<string, string>
  {
    ParseLines(SplitLines(text))
  }

  /** `_read_desktop_entry` */
  method ReadDesktopEntry(text: string) returns (values: map<string, string>)
    ensures values == ReadEntry(text)
  {
    values := map[];
    var lines := SplitLines(text);
    for i := 0 to |lines|
      invariant values == ParseLines(lines[..i])
    {
      assert lines[..i + 1][..i] == lines[..i];
      var line := Strip(lines[i]);
      if line == "" || line[0] == '#' || IndexOf(line, '=') == |line| {
        continue;
      }
      var at := IndexOf(line, '=');
      values := values[Strip(line[..at]) := Strip(line[at + 1..])];
    }
    assert lines[..|lines|] == lines;
  }

  predicate HasKey(line: string, key: string)
  {
    ParseLine(line).Some? && ParseLine(line).value.key == key
  }

  /** The last line with the given key decides. */
  lemma {:induction false} LastLineDecides(lines: seq<string>, key: string, i: nat)
    requires i < |lines| && HasKey(lines[i], key)
    requires forall j :: i < j < |lines| ==> !HasKey(lines[j], key)
    ensures key in ParseLines(lines) && ParseLines(lines)[key] == ParseLine(lines[i]).value.value
  {
    if i < |lines| - 1 {
      LastLineDecides(lines[..|lines| - 1], key, i);
    }
  }

  lemma {:induction false} KeyOfSomeLine(lines: seq<string>, key: string)
    ensures key in ParseLines(lines) <==> exists i :: 0 <= i < |lines| && HasKey(lines[i], key)
  {
    if lines != [] {
      var front := lines[..|lines| - 1];
      KeyOfSomeLine(front, key);
      hide HasKey;
      if i :| 0 <= i < |lines| && HasKey(lines[i], key) {
        assert i < |front| ==> front[i] == lines[i];
      }
      if j :| 0 <= j < |front| && HasKey(front[j], key) {
        assert lines[j] == front[j];
      }
      assert HasKey(lines[|lines| - 1], key) || !HasKey(lines[|lines| - 1], key);
    }
  }

  /** Lines that agree on a key, one by one, give that key the same value. */
  lemma {:induction false} SameForKey(a: seq<string>, b: seq<string>, key: string)
    requires |a| == |b|
    requires forall i :: 0 <= i < |a| ==> a[i] == b[i] || (!HasKey(a[i], key) && !HasKey(b[i], key))
    ensures key in ParseLines(a) <==> key in ParseLines(b)
    ensures key in ParseLines(a) ==> ParseLines(a)[key] == ParseLines(b)[key]
  {
    if a != [] {
      SameForKey(a[..|a| - 1], b[..|b| - 1], key);
    }
  }

  /** Values come out without surrounding blanks and without line breaks. */
  lemma {:induction false} ValuesAreClean(lines: seq<string>, key: string)
    requires AllBreakFree(lines)
    requires key in ParseLines(lines)
    ensures Trimmed(ParseLines(lines)[key]) && BreakFree(ParseLines(lines)[key])
  {
    var last := lines[|lines| - 1];
    if HasKey(last, key) {
      var line := Strip(last);
      StripShape(last);
      StripShape(line[IndexOf(line, '=') + 1..]);
    } else {
      ValuesAreClean(lines[..|lines| - 1], key);
    }
  }

  // ---------------------------------------------------------------- the Hidden flag

  function Replacement(enabled: bool): string
  {
    if enabled then "Hidden=false" else "Hidden=true"
  }

  function Wanted(enabled: bool): string
  {
    if enabled then "false" else "true"
  }

  /** The test the editor makes; the parser also accepts blanks before the equals sign. */
  predicate IsFlagLine(line: string)
  {
    "Hidden=" <= Strip(line)
  }

  function FirstFlag(lines: seq<string>): (i: nat)
    ensures i <= |lines|
    ensures i < |lines| ==> IsFlagLine(lines[i])
    ensures forall k :: 0 <= k < i ==> !IsFlagLine(lines[k])
  {
    if lines == [] || IsFlagLine(lines[0]) then 0 else 1 + FirstFlag(lines[1..])
  }

  function SetFlag(lines: seq<string>, enabled: bool): seq<string>
  {
    var i := FirstFlag(lines);
    if i < |lines| then lines[i := Replacement(enabled)] else lines + [Replacement(enabled)]
  }

  /** The text after `_set_desktop_flag`. */
  function WriteFlag(text: string, enabled: bool): string
  {
    JoinLines(SetFlag(SplitLines(text), enabled))
  }

  /** `_set_desktop_flag`, editing the line list in place. */
  method SetDesktopFlag(text: string, enabled: bool) returns (written: string)
    ensures written == WriteFlag(text, enabled)
  {
    var lines := SplitLines(text);
    ghost var original := lines;
    var changed := false;
    var index := 0;
    while index < |lines| && !changed
      invariant 0 <= index <= |lines|
      invariant !changed ==> lines == original && forall k :: 0 <= k < index ==> !IsFlagLine(original[k])
      invariant changed ==> lines == SetFlag(original, enabled)
      decreases |lines| - index, !changed
    {
      if IsFlagLine(lines[index]) {
        FirstFlagAt(original, index);
        lines := lines[index := Replacement(enabled)];
        changed := true;
      } else {
        index := index + 1;
      }
    }
    if !changed {
      NoFlag(original);
      lines := lines + [Replacement(enabled)];
    }
    written := JoinLines(lines);
  }

  lemma FirstFlagAt(lines: seq<string>, i: nat)
    requires i < |lines| && IsFlagLine(lines[i])
    requires forall k :: 0 <= k < i ==> !IsFlagLine(lines[k])
    ensures FirstFlag(lines) == i
  {
  }

  lemma NoFlag(lines: seq<string>)
    requires forall k :: 0 <= k < |lines| ==> !IsFlagLine(lines[k])
    ensures FirstFlag(lines) == |lines|
  {
  }

  lemma KeyValueLine(key: string, value: string)
    requires Trimmed(key) && key != "" && key[0] != '#' && Trimmed(value)
    requires forall i :: 0 <= i < |key| ==> key[i] != '='
    ensures ParseLine(key + "=" + value) == Some(Pair(key, value))
  {
    var line := key + "=" + value;
    assert line[0] == key[0] && line[|key|] == '=';
    assert line[|line| - 1] == if value == "" then '=' else value[|value| - 1];
    StripOfTrimmed(line);
    StripOfTrimmed(key);
    StripOfTrimmed(value);
    var i := IndexOf(line, '=');
    assert forall k :: 0 <= k < |key| ==> line[k] == key[k];
    assert i == |key|;
    assert line[..i] == key && line[i + 1..] == value;
  }

  lemma ReplacementParses(enabled: bool)
    ensures ParseLine(Replacement(enabled)) == Some(Pair(HIDDEN, Wanted(enabled)))
    ensures IsFlagLine(Replacement(enabled)) && BreakFree(Replacement(enabled))
  {
    hide ParseLine, Strip, BreakFree;
    KeyValueLine(HIDDEN, Wanted(enabled));
    assert Replacement(enabled) == HIDDEN + "=" + Wanted(enabled);
    StripOfTrimmed(Replacement(enabled));
    assert Replacement(enabled)[..7] == "Hidden=";
    ReplacementIsOneLine(enabled);
  }

  lemma ReplacementIsOneLine(enabled: bool)
    ensures BreakFree(Replacement(enabled))
  {
  }

  /** A line the editor would replace is one the parser reads as Hidden. */
  lemma FlagLineIsHidden(line: string)
    requires IsFlagLine(line)
    ensures HasKey(line, HIDDEN)
  {
    var s := Strip(line);
    assert s[..7] == "Hidden=";
    assert s[6] == "Hidden="[6] == '=';
    var i := IndexOf(s, '=');
    assert i == 6 by {
      if i < 6 {
        assert s[i] == "Hidden="[i];
      }
    }
    assert s[0] == 'H';
    assert s[..6] == HIDDEN;
    StripOfTrimmed(HIDDEN);
  }

  /** i is the last line the parser reads as Hidden. */
  ghost predicate IsLastHidden(lines: seq<string>, i: int)
  {
    && 0 <= i < |lines| && HasKey(lines[i], HIDDEN)
    && forall j :: i < j < |lines| ==> !HasKey(lines[j], HIDDEN)
  }

  /** No line has the form that is replaced, or the one that is replaced is the last Hidden line. */
  ghost predicate FlagDecides(lines: seq<string>)
  {
    FirstFlag(lines) == |lines| || IsLastHidden(lines, FirstFlag(lines))
  }

  /** What a write makes of the Hidden key: the written value when the flag decides, else what it was. */
  lemma WrittenValue(lines: seq<string>, enabled: bool)
    ensures HIDDEN in ParseLines(SetFlag(lines, enabled))
    ensures FlagDecides(lines) ==> ParseLines(SetFlag(lines, enabled))[HIDDEN] == Wanted(enabled)
    ensures !FlagDecides(lines) ==>
              HIDDEN in ParseLines(lines) && ParseLines(SetFlag(lines, enabled))[HIDDEN] == ParseLines(lines)[HIDDEN]
  {
    var after := SetFlag(lines, enabled);
    var first := FirstFlag(lines);
    ReplacementParses(enabled);
    hide ParseLine, Strip, IsFlagLine, Replacement;
    if first == |lines| {
      LastLineDecides(after, HIDDEN, |lines|);
    } else {
      FlagLineIsHidden(lines[first]);
      var last := LastHidden(lines, first);
      assert HasKey(after[last], HIDDEN);
      assert forall j :: last < j < |after| ==> after[j] == lines[j];
      LastLineDecides(after, HIDDEN, last);
      LastLineDecides(lines, HIDDEN, last);
    }
  }

  /**
   Reading the flag back, for every file. It comes back as written exactly when the file has no line of the
   replaced form, or the replaced line is the last Hidden line, or the file said the same before.
   */
  lemma FlagReadsBack(lines: seq<string>, enabled: bool)
    ensures HIDDEN in ParseLines(SetFlag(lines, enabled))
    ensures ParseLines(SetFlag(lines, enabled))[HIDDEN] == Wanted(enabled) <==>
            FlagDecides(lines) || (HIDDEN in ParseLines(lines) && ParseLines(lines)[HIDDEN] == Wanted(enabled))
  {
    WrittenValue(lines, enabled);
  }

  /** A file where it does not: of two Hidden lines only the first is replaced. */
  lemma TwoHiddenLinesStay()
    ensures var lines := ["Hidden=true", "Hidden=true"];
      && !FlagDecides(lines)
      && HIDDEN in ParseLines(SetFlag(lines, true))
      && ParseLines(SetFlag(lines, true))[HIDDEN] == "true" != Wanted(true)
  {
    var line := Replacement(false);
    var lines := [line, line];
    assert line == "Hidden=true";
    ReplacementParses(false);
    hide ParseLine, IsFlagLine, Replacement;
    FirstFlagAt(lines, 0);
    assert HasKey(lines[1], HIDDEN);
    WrittenValue(lines, true);
    LastLineDecides(lines, HIDDEN, 1);
  }

  lemma {:induction false} LastHidden(lines: seq<string>, from: nat) returns (last: nat)
    requires from < |lines| && HasKey(lines[from], HIDDEN)
    ensures from <= last < |lines| && IsLastHidden(lines, last)
  {
    last := from;
    while exists j :: last < j < |lines| && HasKey(lines[j], HIDDEN)
      invariant from <= last < |lines| && HasKey(lines[last], HIDDEN)
      decreases |lines| - last
    {
      var j :| last < j < |lines| && HasKey(lines[j], HIDDEN);
      last := j;
    }
  }

  ghost predicate AtMostOneHidden(lines: seq<string>)
  {
    forall i, j :: 0 <= i < |lines| && 0 <= j < |lines| && HasKey(lines[i], HIDDEN) && HasKey(lines[j], HIDDEN) ==>
      i == j
  }

  /** With at most one Hidden line, in whatever spelling, the flag always reads back. */
  lemma SingleHiddenReadsBack(lines: seq<string>, enabled: bool)
    requires AtMostOneHidden(lines)
    ensures FlagDecides(lines)
    ensures HIDDEN in ParseLines(SetFlag(lines, enabled))
    ensures ParseLines(SetFlag(lines, enabled))[HIDDEN] == Wanted(enabled)
  {
    if FirstFlag(lines) < |lines| {
      FlagLineIsHidden(lines[FirstFlag(lines)]);
      hide HasKey, FirstFlag;
      assert IsLastHidden(lines, FirstFlag(lines));
    }
    hide HasKey, FirstFlag;
    WrittenValue(lines, enabled);
  }

  /** For every file and every other key: still there or still absent, with the same value. */
  lemma OtherKeysUnchanged(lines: seq<string>, enabled: bool, key: string)
    requires key != HIDDEN
    ensures key in ParseLines(SetFlag(lines, enabled)) <==> key in ParseLines(lines)
    ensures key in ParseLines(lines) ==> ParseLines(SetFlag(lines, enabled))[key] == ParseLines(lines)[key]
  {
    var after := SetFlag(lines, enabled);
    var first := FirstFlag(lines);
    ReplacementParses(enabled);
    if first < |lines| {
      FlagLineIsHidden(lines[first]);
      SameForKey(after, lines, key);
    } else {
      assert after[..|after| - 1] == lines;
    }
  }

  lemma FirstFlagAfterSet(lines: seq<string>, enabled: bool)
    ensures FirstFlag(SetFlag(lines, enabled)) == FirstFlag(lines)
  {
    ReplacementParses(enabled);
    var after := SetFlag(lines, enabled);
    FirstFlagAt(after, FirstFlag(lines));
  }

  /** A second write fully overrides the first. */
  lemma SecondWriteWins(text: string, first: bool, second: bool)
    ensures WriteFlag(WriteFlag(text, first), second) == WriteFlag(text, second)
  {
    hide SplitLines, JoinLines, Replacement, IsFlagLine, ParseLine, BreakFree, FirstFlag;
    var lines := SplitLines(text);
    var once := SetFlag(lines, first);
    ReplacementParses(first);
    SplitIsBreakFree(text);
    SplitOfJoin(once);
    FirstFlagAfterSet(lines, first);
    assert SetFlag(once, second) == SetFlag(lines, second);
  }

  /** Reading a file after writing its flag is reading the edited lines. */
  lemma ReadAfterWrite(text: string, enabled: bool)
    ensures ReadEntry(WriteFlag(text, enabled)) == ParseLines(SetFlag(SplitLines(text), enabled))
  {
    hide SplitLines, JoinLines, Replacement, IsFlagLine, ParseLine, BreakFree, FirstFlag, ParseLines;
    ReplacementParses(enabled);
    SplitIsBreakFree(text);
    SplitOfJoin(SetFlag(SplitLines(text), enabled));
  }


  // ---------------------------------------------------------------- lines, exactly

  /** A line gives a value exactly when it has an equals sign and is no comment; the first such sign divides it. */
  lemma LineGives(raw: string)
    ensures var line := Strip(raw);
      && (ParseLine(raw).None? <==> line == "" || line[0] == '#' || '=' !in line)
      && (ParseLine(raw).Some? ==> exists i :: DividesAt(line, i, ParseLine(raw).value))
  {
    var line := Strip(raw);
    hide Strip;
    var i := IndexOf(line, '=');
    if '=' in line {
      var k :| 0 <= k < |line| && line[k] == '=';
      assert i <= k;
    }
    if i < |line| {
      assert '=' !in line[..i];
      assert DividesAt(line, i, Pair(Strip(line[..i]), Strip(line[i + 1..])));
    }
  }

  /** The first equals sign is at i, with the key before and the value behind it, both trimmed. */
  predicate DividesAt(line: string, i: int, p: Pair)
  {
    && 0 <= i < |line| && line[i] == '=' && '=' !in line[..i]
    && p == Pair(Strip(line[..i]), Strip(line[i + 1..]))
  }

  /** The editor leaves every line but one as it stands, and adds at most one at the end. */
  lemma OtherLinesStay(lines: seq<string>, enabled: bool)
    ensures var after := SetFlag(lines, enabled);
      var written := if enabled then "Hidden=false" else "Hidden=true";
      if FirstFlag(lines) < |lines| then after == lines[FirstFlag(lines) := written] else after == lines + [written]
  {
  }

  /** t is s without some blanks at its ends. */
  ghost predicate WithoutEnds(s: string, t: string, i: int, j: int)
  {
    && 0 <= i <= j <= |s| && t == s[i..j]
    && (forall k :: 0 <= k < i || j <= k < |s| ==> IsBlank(s[k]))
  }

  lemma {:induction false} LeftEnd(s: string) returns (i: nat)
    ensures i <= |s| && StripLeft(s) == s[i..] && forall k :: 0 <= k < i ==> IsBlank(s[k])
    ensures StripLeft(s) != "" ==> !IsBlank(StripLeft(s)[0])
  {
    i := 0;
    if s != "" && IsBlank(s[0]) {
      var rest := LeftEnd(s[1..]);
      assert forall k :: 1 <= k < rest + 1 ==> s[k] == s[1..][k - 1];
      i := rest + 1;
    }
  }

  lemma {:induction false} RightEnd(s: string) returns (j: nat)
    ensures j <= |s| && StripRight(s) == s[..j] && forall k :: j <= k < |s| ==> IsBlank(s[k])
  {
    j := |s|;
    if s != "" && IsBlank(s[|s| - 1]) {
      j := RightEnd(s[..|s| - 1]);
      assert forall k :: j <= k < |s| - 1 ==> s[k] == s[..|s| - 1][k];
    }
  }

  /** Stripping takes off blanks at both ends, all of them, and nothing else. */
  lemma StripExactly(s: string)
    ensures Trimmed(Strip(s)) && exists i, j :: WithoutEnds(s, Strip(s), i, j)
  {
    StripShape(s);
    var i := LeftEnd(s);
    var left := StripLeft(s);
    var j := RightEnd(left);
    assert forall k :: j <= k < |left| ==> left[k] == s[i + k];
    assert forall k :: i + j <= k < |s| ==> left[k - i] == s[k];
    assert WithoutEnds(s, Strip(s), i, i + j);
  }

  /** The line that is replaced is the first that reads Hidden= once its ends are stripped. */
  lemma FirstFlagExactly(lines: seq<string>)
    ensures var i := FirstFlag(lines);
      && i <= |lines| && (i < |lines| ==> "Hidden=" <= Strip(lines[i]))
      && forall k :: 0 <= k < i ==> !("Hidden=" <= Strip(lines[k]))
  {
    hide Strip;
  }
}
