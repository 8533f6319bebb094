/**
 * Process statuses with their list icon and colour, and the construction of
 * the run configuration from the command line: one process per command,
 * names taken from a comma-separated list (or `proc<N>`), and per-process
 * flags read from the name's suffixes (`!` sets the process's recorded
 * no-Shift+Tab flag, `:w` turns wrapping on). The key handler consults only
 * the global `--no-shift-tab` flag, never the per-process one.
 */
module Config {
  import opened Wrappers
  import opened Styles
  import Decimal

  type I32 = x: int | -0x8000_0000 <= x < 0x8000_0000

  datatype ProcessStatus = Running | Exited(code: I32) | Failed(message: string) | Stopped

  const RunningIcon: string := "\U{25CF}"
  const IdleIcon: string := "\U{25CB}"
  const FailedIcon: string := "\U{2717}"

  function Icon(s: ProcessStatus): string
  {
    match s
    case Running => RunningIcon
    case Exited(code) => if code == 0 then IdleIcon else FailedIcon
    case Failed(_) => FailedIcon
    case Stopped => IdleIcon
  }

  function StatusColor(s: ProcessStatus): Color
  {
    match s
    case Running => Green
    case Exited(code) => if code == 0 then Gray else Red
    case Failed(_) => Red
    case Stopped => Gray
  }

  /** A clean exit and a stop look alike; a failure and a non-zero exit look alike. */
  predicate IsFailure(s: ProcessStatus)
  {
    s.Failed? || (s.Exited? && s.code != 0)
  }

  /**
   * The icon and the colour tell the same story: filled/green exactly when
   * running, cross/red exactly on failure or a non-zero exit, hollow/gray
   * otherwise, and the three icons are distinct.
   */
  lemma IconAndColorAgree(s: ProcessStatus)
    ensures (Icon(s) == RunningIcon) == (StatusColor(s) == Green) == s.Running?
    ensures (Icon(s) == FailedIcon) == (StatusColor(s) == Red) == IsFailure(s)
    ensures (Icon(s) == IdleIcon) == (StatusColor(s) == Gray) == (s.Stopped? || s == Exited(0))
    ensures |Icon(s)| == 1
  {
  }

  datatype ProcessConfig = ProcessConfig(name: string, command: string, noShiftTab: bool, wrapEnabled: bool)

  datatype PanexConfig = PanexConfig(processes: seq<ProcessConfig>, noShiftTab: bool, timeout: nat)

  // ---------------------------------------------------------------- splitting and trimming

  /** Split at every `sep`: n separators give n + 1 pieces, empty ones included. */
  function Split(s: string, sep: char): (parts: seq<string>)
    ensures |parts| >= 1
    ensures forall i :: 0 <= i < |parts| ==> sep !in parts[i]
    decreases |s|
  {
    if s == [] then [[]]
    else
      var rest := Split(s[1..], sep);
      if s[0] == sep then [[]] + rest else [[s[0]] + rest[0]] + rest[1..]
  }

  function Join(parts: seq<string>, sep: char): string
    requires |parts| >= 1
    decreases |parts|
  {
    if |parts| == 1 then parts[0] else parts[0] + [sep] + Join(parts[1..], sep)
  }

  /** Joining the pieces back with the separator gives the original string. */
  lemma {:induction false} SplitJoin(s: string, sep: char)
    ensures Join(Split(s, sep), sep) == s
    decreases |s|
  {
    if s != [] {
      var rest := Split(s[1..], sep);
      SplitJoin(s[1..], sep);
      if s[0] == sep {
        assert Split(s, sep)[1..] == rest;
      } else {
        var parts := Split(s, sep);
        if |rest| == 1 {
          assert parts == [[s[0]] + rest[0]];
        } else {
          assert parts[1..] == rest[1..];
          assert Join(rest, sep) == rest[0] + [sep] + Join(rest[1..], sep);
        }
      }
    }
  }

  /** Pieces free of the separator are recovered exactly from their join. */
  lemma {:induction false} JoinSplit(parts: seq<string>, sep: char)
    requires |parts| >= 1
    requires forall i :: 0 <= i < |parts| ==> sep !in parts[i]
    ensures Split(Join(parts, sep), sep) == parts
    decreases |parts|, |parts[0]|
  {
    if parts[0] != [] {
      var c := parts[0][0];
      var parts' := [parts[0][1..]] + parts[1..];
      var joined := Join(parts, sep);
      assert joined[0] == c && joined[1..] == Join(parts', sep) by {
        if |parts| > 1 {
          assert parts'[1..] == parts[1..];
        }
      }
      JoinSplit(parts', sep);
      assert parts == [[c] + parts'[0]] + parts'[1..] by {
        assert [c] + parts'[0] == parts[0];
      }
    } else if |parts| > 1 {
      JoinSplit(parts[1..], sep);
      assert Join(parts, sep) == [sep] + Join(parts[1..], sep);
      assert Join(parts, sep)[1..] == Join(parts[1..], sep);
    }
  }

  /** The characters with the Unicode White_Space property. */
  predicate IsWhitespace(c: char)
  {
    ('\U{0009}' <= c <= '\U{000D}') || c == ' ' || c == '\U{0085}' || c == '\U{00A0}' || c == '\U{1680}'
    || ('\U{2000}' <= c <= '\U{200A}') || c == '\U{2028}' || c == '\U{2029}' || c == '\U{202F}'
    || c == '\U{205F}' || c == '\U{3000}'
  }

  /** Every character of `t` is white space. */
  predicate AllWhitespace(t: string)
  {
    forall j :: 0 <= j < |t| ==> IsWhitespace(t[j])
  }

  function TrimStart(s: string): (r: string)
    ensures |r| <= |s| && r == s[|s| - |r|..]
    ensures r == [] || !IsWhitespace(r[0])
    ensures AllWhitespace(s[..|s| - |r|])
    decreases |s|
  {
    if s != [] && IsWhitespace(s[0]) then
      var r := TrimStart(s[1..]);
      assert s[..|s| - |r|] == [s[0]] + s[1..][..|s| - 1 - |r|];
      r
    else s
  }

  function TrimEnd(s: string): (r: string)
    ensures |r| <= |s| && r == s[..|r|]
    ensures r == [] || !IsWhitespace(r[|r| - 1])
    ensures AllWhitespace(s[|r|..])
    decreases |s|
  {
    if s != [] && IsWhitespace(s[|s| - 1]) then
      var r := TrimEnd(s[..|s| - 1]);
      assert s[|r|..] == s[..|s| - 1][|r|..] + [s[|s| - 1]];
      r
    else s
  }

  /** How many white-space characters `s` starts with. */
  function LeadingWhitespace(s: string): (n: nat)
    ensures n <= |s|
  {
    |s| - |TrimStart(s)|
  }

  /**
   * Leading and trailing white space removed: the result is the piece of `s`
   * after its leading white space, everything cut off on either side is
   * white space, and the result neither starts nor ends with white space.
   */
  function Trim(s: string): (r: string)
    ensures var i := LeadingWhitespace(s);
      && i + |r| <= |s| && r == s[i..i + |r|]
      && AllWhitespace(s[..i]) && AllWhitespace(s[i + |r|..])
    ensures r == [] || (!IsWhitespace(r[0]) && !IsWhitespace(r[|r| - 1]))
  {
    var t := TrimStart(s);
    var r := TrimEnd(t);
    SuffixThenPrefix(s, t, r);
    r
  }

  /** A prefix of a suffix of `s` is a slice of `s`, and what follows it in the suffix follows it in `s`. */
  lemma SuffixThenPrefix(s: string, t: string, r: string)
    requires |t| <= |s| && t == s[|s| - |t|..]
    requires |r| <= |t| && r == t[..|r|]
    ensures var i := |s| - |t|;
      && r == s[i..i + |r|] && s[i + |r|..] == t[|r|..]
  {
  }

  // ---------------------------------------------------------------- names

  /** The `--names` list: split at commas, each piece trimmed; no list means no names. */
  function NameList(names: Option<string>): (r: seq<string>)
    ensures names.None? ==> r == []
    ensures names.Some? ==>
              |r| == |Split(names.value, ',')| && forall i :: 0 <= i < |r| ==> r[i] == Trim(Split(names.value, ',')[i])
  {
    match names
    case None => []
    case Some(n) =>
      var parts := Split(n, ',');
      seq(|parts|, i requires 0 <= i < |parts| => Trim(parts[i]))
  }

  function DefaultName(i: nat): string
  {
    "proc" + Decimal.Digits(i + 1)
  }

  /** The name of the process at index `i`: the i-th listed name, else `proc{i+1}`. */
  function RawName(nameList: seq<string>, i: nat): string
  {
    if i < |nameList| then nameList[i] else DefaultName(i)
  }

  // ---------------------------------------------------------------- suffixes

  predicate EndsWith(s: string, suffix: string)
  {
    |suffix| <= |s| && s[|s| - |suffix|..] == suffix
  }

  /** `t` is `pat` repeated zero or more times. */
  predicate Repeats(t: string, pat: string)
    requires |pat| > 0
    decreases |t|
  {
    t == [] || (EndsWith(t, pat) && Repeats(t[..|t| - |pat|], pat))
  }

  /** Remove every trailing repetition of `pat`. */
  function TrimEndMatches(s: string, pat: string): (r: string)
    requires |pat| > 0
    ensures |r| <= |s| && r == s[..|r|]
    ensures !EndsWith(r, pat)
    ensures |r| < |s| <==> EndsWith(s, pat)
    decreases |s|
  {
    if EndsWith(s, pat) then TrimEndMatches(s[..|s| - |pat|], pat) else s
  }

  /** What is cut off is a whole number of repetitions of the pattern. */
  lemma {:induction false} TrimEndMatchesCutsRepeats(s: string, pat: string)
    requires |pat| > 0
    ensures Repeats(s[|TrimEndMatches(s, pat)|..], pat)
    decreases |s|
  {
    if EndsWith(s, pat) {
      var s' := s[..|s| - |pat|];
      var r := TrimEndMatches(s', pat);
      assert r == TrimEndMatches(s, pat);
      var t := s[|r|..];
      assert Repeats(t[..|t| - |pat|], pat) by {
        TrimEndMatchesCutsRepeats(s', pat);
        assert t[..|t| - |pat|] == s'[|r|..];
      }
      assert EndsWith(t, pat) by {
        assert t[|t| - |pat|..] == s[|s| - |pat|..];
      }
    } else {
      assert s[|s|..] == [];
    }
  }

  datatype Suffixes = Suffixes(stem: string, noShiftTab: bool, wrapEnabled: bool)

  /**
   * The suffix loop as a recursion: strip all trailing `!` (and note it), or
   * else all trailing `:w` (and note it), until neither ends the string.
   */
  function SuffixFlags(s: string): Suffixes
    decreases |s|
  {
    if EndsWith(s, "!") then
      var r := SuffixFlags(TrimEndMatches(s, "!"));
      r.(noShiftTab := true)
    else if EndsWith(s, ":w") then
      var r := SuffixFlags(TrimEndMatches(s, ":w"));
      r.(wrapEnabled := true)
    else Suffixes(s, false, false)
  }

  /** Strings made only of `!` and `:w` tokens. */
  predicate SuffixWord(s: string)
    decreases |s|
  {
    s == [] || (EndsWith(s, "!") && SuffixWord(s[..|s| - 1])) || (EndsWith(s, ":w") && SuffixWord(s[..|s| - 2]))
  }

  lemma {:induction false} SuffixWordConcat(a: string, b: string)
    requires SuffixWord(a) && SuffixWord(b)
    ensures SuffixWord(a + b)
    decreases |b|
  {
    if b == [] {
      assert a + b == a;
    } else if EndsWith(b, "!") && SuffixWord(b[..|b| - 1]) {
      SuffixWordConcat(a, b[..|b| - 1]);
      assert (a + b)[..|a + b| - 1] == a + b[..|b| - 1];
    } else {
      SuffixWordConcat(a, b[..|b| - 2]);
      assert (a + b)[..|a + b| - 2] == a + b[..|b| - 2];
    }
  }

  /** A run of `!` is a suffix word with a `!` and no `w`; a run of `:w` has a `w` and no `!`. */
  lemma {:induction false} RepeatsIsSuffixWord(t: string, pat: string)
    requires pat == "!" || pat == ":w"
    requires Repeats(t, pat)
    ensures SuffixWord(t)
    ensures t != [] ==> (pat == "!" <==> '!' in t) && (pat == ":w" <==> 'w' in t)
    ensures 'w' in t ==> pat == ":w"
    ensures '!' in t ==> pat == "!"
  {
    if pat == "!" {
      RepeatsOfBang(t);
    } else {
      RepeatsOfColonW(t);
    }
  }

  lemma {:induction false} RepeatsOfBang(t: string)
    requires Repeats(t, "!")
    ensures SuffixWord(t) && 'w' !in t && (t != [] ==> '!' in t)
    decreases |t|
  {
    if t != [] {
      var t' := t[..|t| - 1];
      assert t == t' + ['!'];
      RepeatsOfBang(t');
    }
  }

  lemma {:induction false} RepeatsOfColonW(t: string)
    requires Repeats(t, ":w")
    ensures SuffixWord(t) && '!' !in t && (t != [] ==> 'w' in t)
    decreases |t|
  {
    if t != [] {
      var t' := t[..|t| - 2];
      assert t == t' + [':', 'w'];
      RepeatsOfColonW(t');
    }
  }

  /**
   * What the suffix loop computes: the name is its stem followed by a word of
   * `!` and `:w` tokens in any order; the stem ends in neither; the recorded
   * no-Shift+Tab flag is set exactly when that word contains `!`, and
   * wrapping is on exactly when it contains `:w`.
   */
  lemma {:induction false} SuffixFlagsMeaning(s: string)
    ensures var r := SuffixFlags(s);
      && |r.stem| <= |s| && s[..|r.stem|] == r.stem
      && SuffixWord(s[|r.stem|..])
      && !EndsWith(r.stem, "!") && !EndsWith(r.stem, ":w")
      && r.noShiftTab == ('!' in s[|r.stem|..])
      && r.wrapEnabled == ('w' in s[|r.stem|..])
    decreases |s|
  {
    if EndsWith(s, "!") || EndsWith(s, ":w") {
      var pat := if EndsWith(s, "!") then "!" else ":w";
      var t := TrimEndMatches(s, pat);
      var r := SuffixFlags(t);
      assert SuffixFlags(s) == if pat == "!" then r.(noShiftTab := true) else r.(wrapEnabled := true);
      SuffixFlagsMeaning(t);
      var word, tail := t[|r.stem|..], s[|t|..];
      assert tail != [] && SuffixWord(tail) && ('!' in tail <==> pat == "!") && ('w' in tail <==> pat == ":w") by {
        TrimEndMatchesCutsRepeats(s, pat);
        RepeatsIsSuffixWord(tail, pat);
      }
      assert SuffixWord(word + tail) by {
        SuffixWordConcat(word, tail);
      }
      PrefixAndRest(s, t);
      SplitAt(t, tail, |r.stem|);
    } else {
      assert s[|s|..] == [];
    }
  }

  lemma PrefixAndRest(s: string, t: string)
    requires |t| <= |s| && t == s[..|t|]
    ensures s == t + s[|t|..]
  {
  }

  lemma SplitAt(a: string, b: string, k: nat)
    requires k <= |a|
    ensures (a + b)[k..] == a[k..] + b && (a + b)[..k] == a[..k]
  {
  }

  /** A default name ends in a digit, so it carries no suffix. */
  lemma DefaultNameHasNoSuffix(i: nat)
    ensures SuffixFlags(DefaultName(i)) == Suffixes(DefaultName(i), false, false)
  {
    var d := Decimal.Digits(i + 1);
    var n := DefaultName(i);
    assert n[|n| - 1] == d[|d| - 1];
  }

  /** The suffix loop over a copy of the name, as the command line is read. */
  method ParseSuffixes(rawName: string) returns (noShiftTab: bool, wrapEnabled: bool)
    ensures noShiftTab == SuffixFlags(rawName).noShiftTab
    ensures wrapEnabled == SuffixFlags(rawName).wrapEnabled
  {
    var temp := rawName;
    noShiftTab := false;
    wrapEnabled := false;
    while true
      invariant SuffixFlags(rawName) == SuffixFlags(temp).(noShiftTab := noShiftTab || SuffixFlags(temp).noShiftTab,
                                                          wrapEnabled := wrapEnabled || SuffixFlags(temp).wrapEnabled)
      decreases |temp|
    {
      if EndsWith(temp, "!") {
        temp := TrimEndMatches(temp, "!");
        noShiftTab := true;
      } else if EndsWith(temp, ":w") {
        temp := TrimEndMatches(temp, ":w");
        wrapEnabled := true;
      } else {
        break;
      }
    }
  }

  /**
   * The configuration read for the command at index `i`: the command
   * verbatim, the listed (or default) name kept with its suffixes, and the
   * flags those suffixes set.
   */
  predicate ConfiguredAs(p: ProcessConfig, command: string, nameList: seq<string>, i: nat)
  {
    && p.command == command
    && p.name == RawName(nameList, i)
    && p.noShiftTab == SuffixFlags(p.name).noShiftTab
    && p.wrapEnabled == SuffixFlags(p.name).wrapEnabled
  }

  /** One configuration per command, in order; the global flag and the timeout pass through. */
  method FromArgs(commands: seq<string>, names: Option<string>, noShiftTab: bool, timeout: nat)
    returns (cfg: PanexConfig)
    ensures |cfg.processes| == |commands|
    ensures forall i :: 0 <= i < |commands| ==> ConfiguredAs(cfg.processes[i], commands[i], NameList(names), i)
    ensures cfg.noShiftTab == noShiftTab && cfg.timeout == timeout
  {
    var nameList := NameList(names);
    var processes: seq<ProcessConfig> := [];
    for i := 0 to |commands|
      invariant |processes| == i
      invariant forall j :: 0 <= j < i ==> ConfiguredAs(processes[j], commands[j], nameList, j)
    {
      var rawName := if i < |nameList| then nameList[i] else DefaultName(i);
      var name := rawName;
      var procNoShiftTab, wrapEnabled := ParseSuffixes(rawName);
      var p := ProcessConfig(name, commands[i], procNoShiftTab, wrapEnabled);
      assert ConfiguredAs(p, commands[i], nameList, i);
      ghost var before := processes;
      processes := processes + [p];
      forall j | 0 <= j <= i
        ensures ConfiguredAs(processes[j], commands[j], nameList, j)
      {
        if j < i {
          assert processes[j] == before[j];
        }
      }
    }
    cfg := PanexConfig(processes, noShiftTab, timeout);
  }
}
