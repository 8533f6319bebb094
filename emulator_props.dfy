/**
 * What the emulator promises, proved about the specification in `Emulator`:
 * the scrollback cap and cursor bookkeeping, overwrite semantics of printing,
 * the C0 controls, cursor movement, the erase modes, SGR, the query replies
 * and the content extent.
 */
module EmulatorProps {
  import opened Wrappers
  import opened Styles
  import opened Emulator
  import Decimal

  // ---------------------------------------------------------------- invariant

  lemma StepKeepsBounded(s: Screen, a: Action)
    requires Bounded(s)
    ensures Bounded(Step(s, a))
  {
  }

  /** However long the output, at least one and at most 10,000 lines are kept. */
  lemma {:induction false} RunKeepsBounded(s: Screen, acts: seq<Action>)
    requires Bounded(s)
    ensures Bounded(Run(s, acts))
    decreases |acts|
  {
    if acts != [] {
      RunKeepsBounded(s, acts[..|acts| - 1]);
      StepKeepsBounded(Run(s, acts[..|acts| - 1]), acts[|acts| - 1]);
    }
  }

  /** Feeding two batches one after the other is feeding their concatenation. */
  lemma {:induction false} RunConcat(s: Screen, xs: seq<Action>, ys: seq<Action>)
    ensures Run(Run(s, xs), ys) == Run(s, xs + ys)
    decreases |ys|
  {
    if ys == [] {
      assert xs + ys == xs;
    } else {
      var ys' := ys[..|ys| - 1];
      assert (xs + ys)[..|xs + ys| - 1] == xs + ys';
      RunConcat(s, xs, ys');
    }
  }

  // ---------------------------------------------------------------- rows

  /**
   * When the cap is not reached, EnsureRow only appends empty lines and the
   * cursor stays; otherwise exactly the excess is dropped from the front and
   * the cursor moves up by as much, stopping at row 0.
   */
  lemma EnsureRowEffect(s: Screen, row: nat)
    ensures var r := EnsureRow(s, row);
      var wanted := Max(|s.lines|, row + 1);
      && (wanted <= MaxScrollback ==>
            && r.cursorRow == s.cursorRow
            && r.lines[..|s.lines|] == s.lines
            && forall i :: |s.lines| <= i < |r.lines| ==> r.lines[i] == [])
      && (wanted > MaxScrollback ==>
            && |r.lines| == MaxScrollback
            && r.cursorRow == SatSub(s.cursorRow, wanted - MaxScrollback))
      && (Bounded(s) && row < |s.lines| ==> r == s)
  {
  }

  /**
   * Past the store, EnsureRow for the cursor's own row leaves the cursor on a
   * new empty last line: at its row, or at the last line the store can hold.
   */
  lemma EnsureRowPastStore(s: Screen)
    requires Bounded(s) && s.cursorRow >= |s.lines|
    ensures var r := EnsureRow(s, s.cursorRow);
      && r.cursorRow == Min(s.cursorRow, MaxScrollback - 1)
      && |r.lines| == r.cursorRow + 1
      && r.lines[r.cursorRow] == []
  {
    var grown := s.lines + EmptyLines(s.cursorRow + 1 - |s.lines|);
    var drop := if |grown| > MaxScrollback then |grown| - MaxScrollback else 0;
    assert grown[s.cursorRow] == [];
    assert grown[drop..][s.cursorRow - drop] == [];
  }

  // ---------------------------------------------------------------- printing

  /**
   * Printing overwrites: the store first grows to reach the cursor's row;
   * then exactly the cell under the cursor becomes `c` in the current style,
   * the row is padded with blanks up to the cursor if it was shorter, the
   * column advances by one, and nothing else changes. When the cursor's row
   * already exists the store does not grow.
   */
  lemma PutCharOverwrites(s: Screen, c: char)
    requires Bounded(s)
    ensures var r := PutChar(s, c);
      var s1 := EnsureRow(s, s.cursorRow);
      var row := s1.cursorRow;
      var col := s.cursorCol;
      var line := s1.lines[row];
      && |r.lines| == |s1.lines|
      && r.cursorRow == row && r.cursorCol == col + 1
      && |r.lines[row]| == Max(|line|, col + 1)
      && r.lines[row][col] == Cell(c, s.style)
      && (forall j :: 0 <= j < |line| && j != col ==> r.lines[row][j] == line[j])
      && (forall j :: |line| <= j < col ==> r.lines[row][j] == Blank)
      && (forall i :: 0 <= i < |s1.lines| && i != row ==> r.lines[i] == s1.lines[i])
      && r == s1.(lines := r.lines, cursorCol := col + 1)
    ensures s.cursorRow < |s.lines| ==> EnsureRow(s, s.cursorRow) == s
  {
    EnsureRowEffect(s, s.cursorRow);
    var s1 := EnsureRow(s, s.cursorRow);
    var padded := PadTo(s1.lines[s1.cursorRow], s.cursorCol);
    assert forall j :: 0 <= j < |s1.lines[s1.cursorRow]| ==> padded[j] == padded[..|s1.lines[s1.cursorRow]|][j];
  }

  // ---------------------------------------------------------------- C0 controls

  /** `(col + 8) & !7` is the least multiple of 8 strictly greater than `col`. */
  lemma NextTabStopIsNextMultiple(col: nat)
    ensures NextTabStop(col) % 8 == 0
    ensures col < NextTabStop(col) <= col + 8
  {
  }

  lemma ExecuteControls(s: Screen, b: Byte)
    ensures b == 0x09 ==> Execute(s, b) == s.(cursorCol := Min(NextTabStop(s.cursorCol), MaxLineWidth - 1))
    ensures b == 0x09 ==> Execute(s, b).cursorCol <= MaxLineWidth - 1
    ensures b == 0x08 ==> Execute(s, b) == s.(cursorCol := SatSub(s.cursorCol, 1))
    ensures b == 0x0D ==> Execute(s, b) == s.(cursorCol := 0)
    ensures b in {0x0A, 0x0B, 0x0C} ==> Execute(s, b) == Newline(s)
    ensures b !in {0x08, 0x09, 0x0A, 0x0B, 0x0C, 0x0D} ==> Execute(s, b) == s
  {
  }

  /** A line feed below the cap moves to the start of the next row and keeps every line. */
  lemma NewlineMovesDown(s: Screen)
    requires Bounded(s) && s.cursorRow + 2 <= MaxScrollback
    ensures var r := Newline(s);
      && r.cursorRow == s.cursorRow + 1 && r.cursorCol == 0
      && r.lines[..|s.lines|] == s.lines
      && r == s.(lines := r.lines, cursorRow := s.cursorRow + 1, cursorCol := 0)
  {
  }

  // ---------------------------------------------------------------- cursor movement

  /** A missing parameter and a zero parameter both mean 1 for every movement command. */
  lemma MissingOrZeroMeansOne(s: Screen, final: char)
    requires final in {'A', 'B', 'C', 'D', 'E', 'F', 'G'}
    ensures Csi(s, [], final) == Csi(s, [1], final)
    ensures Csi(s, [0], final) == Csi(s, [1], final)
  {
    assert GetParam([], 0, 1) == GetParam([0], 0, 1) == GetParam([1], 0, 1) == 1;
  }

  lemma CursorUpAndBackSaturate(s: Screen, p: seq<U16>)
    ensures Csi(s, p, 'A') == s.(cursorRow := SatSub(s.cursorRow, GetParam(p, 0, 1)))
    ensures Csi(s, p, 'F') == s.(cursorRow := SatSub(s.cursorRow, GetParam(p, 0, 1)), cursorCol := 0)
    ensures Csi(s, p, 'D') == s.(cursorCol := SatSub(s.cursorCol, GetParam(p, 0, 1)))
  {
  }

  /** Forward, column-absolute and position commands never leave the column past 1999. */
  lemma ColumnMovesAreCapped(s: Screen, p: seq<U16>, final: char)
    requires final in {'C', 'G', 'H', 'f'}
    ensures Csi(s, p, final).cursorCol <= MaxLineWidth - 1
  {
  }

  /**
   * CUP puts the cursor at the 1-based row it names, or at the last line the
   * store can hold when it names a row past 10,000, and at the named column
   * capped at 1999; the store grows to reach that row and nothing else changes.
   */
  lemma CursorPositionEffect(s: Screen, p: seq<U16>)
    requires Bounded(s)
    ensures var r := Csi(s, p, 'H');
      && r.cursorRow == Min(GetParam(p, 0, 1), MaxScrollback) - 1
      && r.cursorCol == Min(SatSub(GetParam(p, 1, 1), 1), MaxLineWidth - 1)
      && r.cursorRow < |r.lines|
      && |r.lines| == Max(|s.lines|, r.cursorRow + 1)
      && (GetParam(p, 0, 1) <= |s.lines| ==> r.lines == s.lines)
      && r == s.(lines := r.lines, cursorRow := r.cursorRow, cursorCol := r.cursorCol)
  {
    var row := SatSub(GetParam(p, 0, 1), 1);
    var col := SatSub(GetParam(p, 1, 1), 1);
    EnsureRowEffect(s.(cursorRow := row, cursorCol := Min(col, MaxLineWidth - 1)), row);
  }

  /** Save and restore ignore their parameters; a restore without a save changes nothing. */
  lemma SaveAndRestore(s: Screen, p: seq<U16>, q: seq<U16>)
    ensures Csi(s, p, 's') == s.(saved := Some((s.cursorRow, s.cursorCol)))
    ensures s.saved.None? ==> Csi(s, q, 'u') == s
    ensures s.saved.Some? ==> Csi(s, q, 'u') == s.(cursorRow := s.saved.value.0, cursorCol := s.saved.value.1)
    ensures Csi(Csi(s, p, 's'), q, 'u') == s.(saved := Some((s.cursorRow, s.cursorCol)))
  {
  }

  // ---------------------------------------------------------------- erasing

  /**
   * Erase in line, mode 0: the cursor's row, once it exists, is cut at the
   * cursor and nothing else changes; when the cursor is past the store, the
   * only change is that the store grows to reach its (empty) row.
   */
  lemma EraseInLineToEnd(s: Screen)
    requires Bounded(s)
    ensures var s1 := EnsureRow(s, s.cursorRow);
      var line := s1.lines[s1.cursorRow];
      Csi(s, [0], 'K') == s1.(lines := s1.lines[s1.cursorRow := line[..Min(|line|, s.cursorCol)]])
    ensures s.cursorRow < |s.lines| ==>
      var line := s.lines[s.cursorRow];
      Csi(s, [0], 'K') == s.(lines := s.lines[s.cursorRow := line[..Min(|line|, s.cursorCol)]])
    ensures s.cursorRow >= |s.lines| ==> Csi(s, [0], 'K') == EnsureRow(s, s.cursorRow)
  {
    var s1 := EnsureRow(s, s.cursorRow);
    EnsureRowEffect(s, s.cursorRow);
    assert s1.lines[s1.cursorRow][..|s1.lines[s1.cursorRow]|] == s1.lines[s1.cursorRow];
    if s.cursorRow >= |s.lines| {
      EnsureRowPastStore(s);
    }
  }

  /**
   * Erase in line, mode 1: on the cursor's row, once it exists, the existing
   * cells 0..=col become blanks, the row keeps its length and nothing else
   * changes; when the cursor is past the store, the only change is that the
   * store grows to reach its (empty) row.
   */
  lemma EraseInLineToCursor(s: Screen)
    requires Bounded(s)
    ensures var r := Csi(s, [1], 'K');
      var s1 := EnsureRow(s, s.cursorRow);
      var line := s1.lines[s1.cursorRow];
      && r == s1.(lines := r.lines)
      && |r.lines| == |s1.lines|
      && (forall i :: 0 <= i < |s1.lines| && i != s1.cursorRow ==> r.lines[i] == s1.lines[i])
      && |r.lines[s1.cursorRow]| == |line|
      && (forall j :: 0 <= j < |line| && j <= s.cursorCol ==> r.lines[s1.cursorRow][j] == Blank)
      && (forall j :: s.cursorCol < j < |line| ==> r.lines[s1.cursorRow][j] == line[j])
    ensures s.cursorRow < |s.lines| ==> EnsureRow(s, s.cursorRow) == s
    ensures s.cursorRow >= |s.lines| ==> Csi(s, [1], 'K') == EnsureRow(s, s.cursorRow)
  {
    EnsureRowEffect(s, s.cursorRow);
    if s.cursorRow >= |s.lines| {
      EnsureRowPastStore(s);
      var s1 := EnsureRow(s, s.cursorRow);
      assert BlankPrefix(s1.lines[s1.cursorRow], s1.cursorCol + 1) == [];
      assert s1.lines[s1.cursorRow := []] == s1.lines;
    }
  }

  /** Erase in line, mode 2, empties the cursor's row once it exists; unknown modes change nothing. */
  lemma EraseInLineOther(s: Screen, mode: U16)
    requires Bounded(s) && mode >= 2
    ensures mode == 2 ==> var s1 := EnsureRow(s, s.cursorRow);
      Csi(s, [mode], 'K') == s1.(lines := s1.lines[s1.cursorRow := []])
    ensures mode == 2 && s.cursorRow < |s.lines| ==> Csi(s, [mode], 'K') == s.(lines := s.lines[s.cursorRow := []])
    ensures mode == 2 && s.cursorRow >= |s.lines| ==> Csi(s, [mode], 'K') == EnsureRow(s, s.cursorRow)
    ensures mode > 2 ==> Csi(s, [mode], 'K') == s
  {
    EnsureRowEffect(s, s.cursorRow);
    if s.cursorRow >= |s.lines| {
      EnsureRowPastStore(s);
      var s1 := EnsureRow(s, s.cursorRow);
      assert s1.lines[s1.cursorRow := []] == s1.lines;
    }
  }

  /**
   * Erase in display: mode 0 makes the store end at the cursor's row, which
   * is cut at the cursor, keeping the rows above it; the cursor stays unless
   * it was past the last line the store can hold. Modes 2 and 3 leave one
   * empty line with the cursor at the origin; mode 1 and unknown modes
   * change nothing.
   */
  lemma EraseInDisplay(s: Screen, mode: U16)
    requires Bounded(s)
    ensures var r := Csi(s, [mode], 'J');
      && (mode == 0 ==>
            var s1 := EnsureRow(s, s.cursorRow);
            && |r.lines| == r.cursorRow + 1 && r.cursorRow == s1.cursorRow
            && (s.cursorRow < MaxScrollback ==> r.cursorRow == s.cursorRow)
            && r.lines[..r.cursorRow] == s1.lines[..r.cursorRow]
            && r.lines[r.cursorRow] == s1.lines[r.cursorRow][..Min(|s1.lines[r.cursorRow]|, s.cursorCol)]
            && r == s.(lines := r.lines, cursorRow := r.cursorRow))
      && (mode == 0 && s.cursorRow < |s.lines| ==>
            && r.lines[..s.cursorRow] == s.lines[..s.cursorRow]
            && r.lines[s.cursorRow] == s.lines[s.cursorRow][..Min(|s.lines[s.cursorRow]|, s.cursorCol)])
      && (mode == 2 || mode == 3 ==> r == s.(lines := [[]], cursorRow := 0, cursorCol := 0))
      && (mode == 1 || mode > 3 ==> r == s)
  {
    if mode == 0 {
      assert Csi(s, [mode], 'J') == ClearScreenFromCursor(s);
      ClearScreenFromCursorEffect(s);
    }
  }

  /** The mode-0 part of erase in display, stated on the state it starts from. */
  lemma ClearScreenFromCursorEffect(s: Screen)
    requires Bounded(s)
    ensures var r := ClearScreenFromCursor(s);
      var s1 := EnsureRow(s, s.cursorRow);
      && |r.lines| == r.cursorRow + 1 && r.cursorRow == s1.cursorRow
      && (s.cursorRow < MaxScrollback ==> r.cursorRow == s.cursorRow)
      && r.lines[..r.cursorRow] == s1.lines[..r.cursorRow]
      && r.lines[r.cursorRow] == s1.lines[r.cursorRow][..Min(|s1.lines[r.cursorRow]|, s.cursorCol)]
      && r == s.(lines := r.lines, cursorRow := r.cursorRow)
      && (s.cursorRow < |s.lines| ==> s1 == s)
  {
    EnsureRowEffect(s, s.cursorRow);
    var s1 := EnsureRow(s, s.cursorRow);
    var line := s1.lines[s1.cursorRow];
    assert line[..|line|] == line;
  }

  // ---------------------------------------------------------------- SGR

  lemma SgrResets(st: Style)
    ensures Sgr(st, []) == DefaultStyle
    ensures Sgr(st, [0]) == DefaultStyle
    ensures Sgr(st, [39]) == st.(fg := Some(Reset))
    ensures Sgr(st, [49]) == st.(bg := Some(Reset))
  {
  }

  /** `38;5;n` / `48;5;n` at position i set an indexed colour (n mod 256) and consume two more parameters. */
  lemma SgrIndexedColor(st: Style, p: seq<U16>, i: nat)
    requires i + 2 < |p| && p[i + 1] == 5
    ensures p[i] == 38 ==> SgrFrom(st, p, i) == SgrFrom(st.(fg := Some(Indexed(p[i + 2] % 256))), p, i + 3)
    ensures p[i] == 48 ==> SgrFrom(st, p, i) == SgrFrom(st.(bg := Some(Indexed(p[i + 2] % 256))), p, i + 3)
  {
  }

  /** `38;2;r;g;b` / `48;2;r;g;b` at position i set an RGB colour and consume four more parameters. */
  lemma SgrRgbColor(st: Style, p: seq<U16>, i: nat)
    requires i + 4 < |p| && p[i + 1] == 2
    ensures var c := Rgb(p[i + 2] % 256, p[i + 3] % 256, p[i + 4] % 256);
      && (p[i] == 38 ==> SgrFrom(st, p, i) == SgrFrom(st.(fg := Some(c)), p, i + 5))
      && (p[i] == 48 ==> SgrFrom(st, p, i) == SgrFrom(st.(bg := Some(c)), p, i + 5))
  {
  }

  /** An incomplete 38/48 is skipped on its own: the parameters after it are read as codes. */
  lemma SgrIncompleteExtendedIgnored(st: Style, p: seq<U16>, i: nat)
    requires i < |p| && (p[i] == 38 || p[i] == 48)
    requires !(i + 2 < |p| && p[i + 1] == 5) && !(i + 4 < |p| && p[i + 1] == 2)
    ensures SgrFrom(st, p, i) == SgrFrom(st, p, i + 1)
  {
  }

  predicate KnownSgrCode(code: int)
  {
    code in {0, 1, 2, 3, 4, 5, 6, 7, 8, 9, 22, 23, 24, 25, 27, 28, 29, 38, 39, 48, 49}
    || 30 <= code <= 37 || 40 <= code <= 47 || 90 <= code <= 97 || 100 <= code <= 107
  }

  lemma SgrUnknownIgnored(st: Style, p: seq<U16>, i: nat)
    requires i < |p| && !KnownSgrCode(p[i])
    ensures SgrFrom(st, p, i) == SgrFrom(st, p, i + 1)
  {
  }

  /** A reset anywhere a code is read discards every earlier setting. */
  lemma {:induction false} SgrResetForgets(st1: Style, st2: Style, p: seq<U16>, i: nat)
    requires i < |p| && p[i] == 0
    ensures SgrFrom(st1, p, i) == SgrFrom(st2, p, i)
  {
  }

  /** Codes 30 to 37 set the foreground from the standard colour table. */
  lemma SgrCodeColors(st: Style, p: seq<U16>, i: nat)
    requires i < |p| && 30 <= p[i] <= 37
    ensures SgrCode(st, p, i).0 == st.(fg := Some(AnsiToColor(p[i] - 30)))
  {
  }

  /** The attribute each SGR code from 1 to 9 switches on; rapid blink (6) counts as slow blink. */
  const SetCodes: map<int, Modifier> :=
    map[1 := Bold, 2 := Dim, 3 := Italic, 4 := Underlined, 5 := SlowBlink, 6 := SlowBlink,
        7 := Reversed, 8 := Hidden, 9 := CrossedOut]

  /** The attributes each SGR code from 22 to 29 switches off; 26 is not one of them. */
  const ResetCodes: map<int, set<Modifier>> :=
    map[22 := {Bold, Dim}, 23 := {Italic}, 24 := {Underlined}, 25 := {SlowBlink},
        27 := {Reversed}, 28 := {Hidden}, 29 := {CrossedOut}]

  /**
   * The single-parameter codes: 0 resets the style, 39 and 49 reset one
   * colour; 1 to 9 switch one attribute on and 22 to 29
   * switch attributes off, as the tables say; 40 to 47 set the background
   * from the standard table; 90 to 97 and 100 to 107 set the foreground and
   * the background from the bright table. Each changes only that part of
   * the style and consumes no further parameter.
   */
  lemma SgrCodeEffects(st: Style, p: seq<U16>, i: nat)
    requires i < |p|
    ensures p[i] == 0 ==> SgrCode(st, p, i) == (DefaultStyle, 0)
    ensures p[i] == 39 ==> SgrCode(st, p, i) == (st.(fg := Some(Reset)), 0)
    ensures p[i] == 49 ==> SgrCode(st, p, i) == (st.(bg := Some(Reset)), 0)
    ensures p[i] in SetCodes ==>
      var m := SetCodes[p[i]];
      SgrCode(st, p, i) == (st.(addModifier := st.addModifier + {m}, subModifier := st.subModifier - {m}), 0)
    ensures p[i] in ResetCodes ==>
      var m := ResetCodes[p[i]];
      SgrCode(st, p, i) == (st.(addModifier := st.addModifier - m, subModifier := st.subModifier + m), 0)
    ensures 40 <= p[i] <= 47 ==> SgrCode(st, p, i) == (st.(bg := Some(AnsiToColor(p[i] - 40))), 0)
    ensures 90 <= p[i] <= 97 ==> SgrCode(st, p, i) == (st.(fg := Some(BrightAnsiToColor(p[i] - 90))), 0)
    ensures 100 <= p[i] <= 107 ==> SgrCode(st, p, i) == (st.(bg := Some(BrightAnsiToColor(p[i] - 100))), 0)
  {
  }

  /** Attributes layer: SGR 1;3 leaves bold and italic both on, whatever was set before. */
  lemma SgrAttributesLayer(st: Style)
    ensures Sgr(st, [1, 3]) == st.(addModifier := st.addModifier + {Bold, Italic}, subModifier := st.subModifier - {Bold, Italic})
  {
    assert SetCodes[1] == Bold && SetCodes[3] == Italic;
    var st1 := st.(addModifier := st.addModifier + {Bold}, subModifier := st.subModifier - {Bold});
    var st2 := st1.(addModifier := st1.addModifier + {Italic}, subModifier := st1.subModifier - {Italic});
    SgrCodeEffects(st, [1, 3], 0);
    SgrCodeEffects(st1, [1, 3], 1);
    assert SgrFrom(st, [1, 3], 0) == SgrFrom(st1, [1, 3], 1) == SgrFrom(st2, [1, 3], 2);
  }

  /** SGR 1;3;22: code 22 switches off bold (and dim) and leaves the italic that 3 switched on. */
  lemma SgrNormalIntensityKeepsItalic(st: Style)
    ensures Sgr(st, [1, 3, 22]).addModifier == st.addModifier - {Bold, Dim} + {Italic}
    ensures {Bold, Dim} <= Sgr(st, [1, 3, 22]).subModifier
  {
    assert SetCodes[1] == Bold && SetCodes[3] == Italic && ResetCodes[22] == {Bold, Dim};
    var st1 := st.(addModifier := st.addModifier + {Bold}, subModifier := st.subModifier - {Bold});
    var st2 := st1.(addModifier := st1.addModifier + {Italic}, subModifier := st1.subModifier - {Italic});
    SgrCodeEffects(st, [1, 3, 22], 0);
    SgrCodeEffects(st1, [1, 3, 22], 1);
    SgrCodeEffects(st2, [1, 3, 22], 2);
    assert SgrFrom(st, [1, 3, 22], 0) == SgrFrom(st1, [1, 3, 22], 1) == SgrFrom(st2, [1, 3, 22], 2);
  }

  // ---------------------------------------------------------------- queries

  /**
   * DA queues its reply whatever its parameters; DSR reads only its first
   * parameter (missing means 0): 5 and 6 queue their replies, any other
   * mode changes nothing. Nothing but the queue changes.
   */
  lemma QueryReplies(s: Screen, p: seq<U16>)
    ensures Csi(s, p, 'c') == s.(pending := s.pending + [DeviceAttributesReply])
    ensures GetParam(p, 0, 0) == 5 ==> Csi(s, p, 'n') == s.(pending := s.pending + [StatusOkReply])
    ensures GetParam(p, 0, 0) == 6 ==>
      Csi(s, p, 'n') == s.(pending := s.pending + [CursorPositionReply(s.cursorRow + 1, s.cursorCol + 1)])
    ensures GetParam(p, 0, 0) != 5 && GetParam(p, 0, 0) != 6 ==> Csi(s, p, 'n') == s
  {
  }

  /** The value of a string of ASCII digit bytes. */
  function BytesValue(b: seq<Byte>): nat
    requires forall i :: 0 <= i < |b| ==> 0x30 <= b[i] <= 0x39
  {
    if b == [] then 0 else 10 * BytesValue(b[..|b| - 1]) + (b[|b| - 1] - 0x30)
  }

  function IndexOfByte(b: seq<Byte>, x: Byte): (r: Option<nat>)
    ensures r.Some? ==> r.value < |b| && b[r.value] == x && x !in b[..r.value]
    ensures r.None? ==> x !in b
  {
    if b == [] then None
    else if b[0] == x then Some(0)
    else match IndexOfByte(b[1..], x)
      case Some(k) => (assert b[..k + 1] == [b[0]] + b[1..][..k]; Some(k + 1))
      case None => (assert b == [b[0]] + b[1..]; None)
  }

  predicate AllDigitBytes(b: seq<Byte>) { forall i :: 0 <= i < |b| ==> 0x30 <= b[i] <= 0x39 }

  /** How the program that sent DSR 6 reads the reply: ESC [ row ; col R. */
  function ParseCursorReport(b: seq<Byte>): Option<(nat, nat)>
  {
    if |b| < 3 || b[0] != 0x1B || b[1] != 0x5B || b[|b| - 1] != 0x52 then None
    else
      var body := b[2..|b| - 1];
      match IndexOfByte(body, 0x3B)
      case None => None
      case Some(k) =>
        var rowDigits := body[..k];
        var colDigits := body[k + 1..];
        if rowDigits != [] && colDigits != [] && AllDigitBytes(rowDigits) && AllDigitBytes(colDigits)
        then Some((BytesValue(rowDigits), BytesValue(colDigits)))
        else None
  }

  lemma {:induction false} BytesValueOfDigits(n: nat)
    ensures BytesValue(Decimal.DigitBytes(n)) == n
  {
    if n >= 10 {
      var b := Decimal.DigitBytes(n);
      assert b[..|b| - 1] == Decimal.DigitBytes(n / 10);
      BytesValueOfDigits(n / 10);
    }
  }

  /** The first `x` in `a + [x] + b` is at |a| when `a` has none. */
  lemma IndexOfFirst(a: seq<Byte>, x: Byte, b: seq<Byte>)
    requires x !in a
    ensures IndexOfByte(a + [x] + b, x) == Some(|a|)
  {
    var body := a + [x] + b;
    assert body[|a|] == x;
    assert forall i :: 0 <= i < |a| ==> body[i] == a[i];
  }

  lemma DigitBytesHaveNoSeparator(n: nat)
    ensures 0x3B !in Decimal.DigitBytes(n)
    ensures AllDigitBytes(Decimal.DigitBytes(n))
  {
  }

  /** A well-formed report ESC [ r ; c R reads back as the values of its two digit strings. */
  lemma ParseWellFormedReport(rb: seq<Byte>, cb: seq<Byte>)
    requires rb != [] && cb != [] && AllDigitBytes(rb) && AllDigitBytes(cb)
    ensures ParseCursorReport([0x1B, 0x5B] + rb + [0x3B] + cb + [0x52]) == Some((BytesValue(rb), BytesValue(cb)))
  {
    var b := [0x1B, 0x5B] + rb + [0x3B] + cb + [0x52];
    var body := rb + [0x3B] + cb;
    assert b == [0x1B, 0x5B] + body + [0x52];
    assert b[2..|b| - 1] == body;
    assert 0x3B !in rb by {
      forall i | 0 <= i < |rb| ensures rb[i] != 0x3B { }
    }
    IndexOfFirst(rb, 0x3B, cb);
    assert body[..|rb|] == rb;
    assert body[|rb| + 1..] == cb;
  }

  /** The cursor position report reads back as the position it reports. */
  lemma CursorReportRoundTrip(row: nat, col: nat)
    ensures ParseCursorReport(CursorPositionReply(row, col)) == Some((row, col))
  {
    var rb, cb := Decimal.DigitBytes(row), Decimal.DigitBytes(col);
    DigitBytesHaveNoSeparator(row);
    DigitBytesHaveNoSeparator(col);
    ParseWellFormedReport(rb, cb);
    BytesValueOfDigits(row);
    BytesValueOfDigits(col);
  }

  // ---------------------------------------------------------------- content extent

  /**
   * The content count is at least 1, every line at or beyond it is empty,
   * and the line just before it is not (unless the count is the minimum 1).
   */
  lemma {:induction false} TrimmedLengthMeaning(lines: seq<Line>)
    ensures var n := TrimmedLength(lines);
      && (forall i :: n <= i < |lines| ==> lines[i] == [])
      && (n > 0 ==> lines[n - 1] != [])
    decreases |lines|
  {
    if |lines| > 0 && lines[|lines| - 1] == [] {
      var init := lines[..|lines| - 1];
      TrimmedLengthMeaning(init);
      var n := TrimmedLength(init);
      assert forall i :: n <= i < |init| ==> lines[i] == init[i];
    }
  }

  lemma ContentLineCountMeaning(lines: seq<Line>)
    ensures var n := ContentLineCount(lines);
      && 1 <= n
      && (forall i :: n <= i < |lines| ==> lines[i] == [])
      && (n > 1 ==> lines[n - 1] != [])
      && (|lines| >= 1 ==> n <= |lines|)
  {
    TrimmedLengthMeaning(lines);
  }

  // ---------------------------------------------------------------- scenarios

  /** Feeding one more action is one more step. */
  lemma RunSnoc(s: Screen, acts: seq<Action>, a: Action)
    ensures Run(s, acts + [a]) == Step(Run(s, acts), a)
  {
    assert (acts + [a])[..|acts|] == acts;
  }

  /** Print "A", go to the next line, move back up, print "B": the cell holds "B" and the row does not grow. */
  lemma OverwriteScenario(cols: nat, rows: nat)
    ensures Run(New(cols, rows), [Print('A'), Control(0x0D), Control(0x0A), CsiDispatch([], 'A'), Print('B')]).lines[0]
         == [Cell('B', DefaultStyle)]
  {
    var a0, a1, a2, a3, a4 := Print('A'), Control(0x0D), Control(0x0A), CsiDispatch([], 'A'), Print('B');
    OverwriteSteps(cols, rows);
    RunSteps(New(cols, rows), a0, a1, a2, a3, a4);
  }

  /** The five steps of the overwrite trace. */
  lemma OverwriteSteps(cols: nat, rows: nat)
    ensures var s := New(cols, rows);
      Step(Step(Step(Step(Step(s, Print('A')), Control(0x0D)), Control(0x0A)), CsiDispatch([], 'A')), Print('B')).lines[0]
        == [Cell('B', DefaultStyle)]
  {
    PrintThenNewline(New(cols, rows));
    var s := New(cols, rows);
    UpThenPrint(Step(Step(Step(s, Print('A')), Control(0x0D)), Control(0x0A)));
  }

  /** "A", CR, LF on a fresh screen: the cursor is on row 1 and row 0 holds "A". */
  lemma PrintThenNewline(s0: Screen)
    requires s0 == New(s0.cols, s0.rows)
    ensures var s3 := Step(Step(Step(s0, Print('A')), Control(0x0D)), Control(0x0A));
      && Bounded(s3) && s3.cursorRow == 1 && s3.cursorCol == 0 && s3.lines[0] == [Cell('A', DefaultStyle)] && s3.style == DefaultStyle
  {
    PutCharOverwrites(s0, 'A');
    assert EnsureRow(s0, 0) == s0;
    var s1 := PutChar(s0, 'A');
    assert s1.lines[0] == [Cell('A', DefaultStyle)] && |s1.lines| == 1 && s1.cursorRow == 0;
    var s2 := s1.(cursorCol := 0);
    NewlineMovesDown(s2);
    assert Step(s0, Print('A')) == s1;
    assert Step(s1, Control(0x0D)) == s2;
    assert Step(s2, Control(0x0A)) == Newline(s2);
  }

  /** CUU from the start of row 1 onto a row holding one cell, then "B": the row holds exactly "B". */
  lemma UpThenPrint(s3: Screen)
    requires Bounded(s3) && s3.cursorRow == 1 && s3.cursorCol == 0 && |s3.lines[0]| == 1
    ensures Step(Step(s3, CsiDispatch([], 'A')), Print('B')).lines[0] == [Cell('B', s3.style)]
  {
    CursorUpAndBackSaturate(s3, []);
    var s4 := s3.(cursorRow := 0);
    assert Step(s3, CsiDispatch([], 'A')) == s4;
    PutCharOverwrites(s4, 'B');
    assert EnsureRow(s4, 0) == s4;
  }

  lemma RunSteps(s: Screen, a0: Action, a1: Action, a2: Action, a3: Action, a4: Action)
    ensures Run(s, [a0, a1, a2, a3, a4]) == Step(Step(Step(Step(Step(s, a0), a1), a2), a3), a4)
  {
    var acts := [a0, a1, a2, a3, a4];
    assert acts[..4] == [a0, a1, a2, a3];
    assert acts[..4][..3] == [a0, a1, a2];
    assert acts[..4][..3][..2] == [a0, a1];
    assert acts[..4][..3][..2][..1] == [a0];
    assert acts[..4][..3][..2][..1][..0] == [];
    assert Run(s, [a0]) == Step(s, a0);
    assert Run(s, [a0, a1]) == Step(Run(s, [a0]), a1);
    assert Run(s, [a0, a1, a2]) == Step(Run(s, [a0, a1]), a2);
    assert Run(s, [a0, a1, a2, a3]) == Step(Run(s, [a0, a1, a2]), a3);
  }

  /** CUP to row 6, save, clear the screen, restore: one line in the store, the cursor on row 6. */
  lemma RestorePastStoreTrace(s: Screen)
    requires Bounded(s)
    ensures var t := Run(s, [CsiDispatch([6], 'H'), CsiDispatch([], 's'), CsiDispatch([2], 'J'), CsiDispatch([], 'u')]);
      t.lines == [[]] && t.cursorRow == 5 && t.cursorCol == 0
  {
    CursorPositionEffect(s, [6]);
    assert GetParam([6], 0, 1) == 6 && GetParam([6], 1, 1) == 1;
    var s1 := Csi(s, [6], 'H');
    assert s1.cursorRow == 5 && s1.cursorCol == 0;
    var s2 := s1.(saved := Some((5, 0)));
    assert Csi(s1, [], 's') == s2;
    var s3 := s2.(lines := [[]], cursorRow := 0, cursorCol := 0);
    EraseInDisplay(s2, 2);
    assert Csi(s2, [2], 'J') == s3;
    SaveAndRestore(s3, [], []);
    assert Csi(s3, [], 'u') == s3.(cursorRow := 5, cursorCol := 0);
    RunFour(s, CsiDispatch([6], 'H'), CsiDispatch([], 's'), CsiDispatch([2], 'J'), CsiDispatch([], 'u'));
  }

  lemma RunFour(s: Screen, a0: Action, a1: Action, a2: Action, a3: Action)
    ensures Run(s, [a0, a1, a2, a3]) == Step(Step(Step(Step(s, a0), a1), a2), a3)
  {
    var acts := [a0, a1, a2, a3];
    assert acts[..3] == [a0, a1, a2];
    assert acts[..3][..2] == [a0, a1];
    assert acts[..3][..2][..1] == [a0];
    assert acts[..3][..2][..1][..0] == [];
    assert Run(s, [a0]) == Step(s, a0);
    assert Run(s, [a0, a1]) == Step(Run(s, [a0]), a1);
    assert Run(s, [a0, a1, a2]) == Step(Run(s, [a0, a1]), a2);
  }

  /**
   * After that trace the cursor is past the store: a following EL 0 grows
   * the store to six empty lines, and a printed character lands alone at the
   * start of a sixth line.
   */
  lemma RestorePastStoreScenario(s: Screen)
    requires Bounded(s)
    ensures var t := Run(s, [CsiDispatch([6], 'H'), CsiDispatch([], 's'), CsiDispatch([2], 'J'), CsiDispatch([], 'u')]);
      && |t.lines| == 1 && t.cursorRow == 5 && t.cursorCol == 0
      && Csi(t, [0], 'K').lines == [[], [], [], [], [], []]
      && PutChar(t, 'x').lines == [[], [], [], [], [], [Cell('x', t.style)]]
  {
    var t := Run(s, [CsiDispatch([6], 'H'), CsiDispatch([], 's'), CsiDispatch([2], 'J'), CsiDispatch([], 'u')]);
    RestorePastStoreTrace(s);
    EraseInLineToEnd(t);
    EnsureRowPastStore(t);
    EnsureRowEffect(t, 5);
    var r := EnsureRow(t, 5);
    assert |r.lines| == 6 && r.lines[..1] == [[]];
    assert r.lines == [[], [], [], [], [], []];
    PrintPastStore(t, 'x');
  }

  /** Printing with the cursor on row 6 of a one-line store: five empty lines, then the character alone. */
  lemma PrintPastStore(t: Screen, c: char)
    requires t.lines == [[]] && t.cursorRow == 5 && t.cursorCol == 0
    ensures PutChar(t, c).lines == [[], [], [], [], [], [Cell(c, t.style)]]
  {
    PutCharOverwrites(t, c);
    EnsureRowPastStore(t);
    EnsureRowEffect(t, 5);
    var r := EnsureRow(t, 5);
    assert r.lines[..1] == [[]];
    assert r.lines == [[], [], [], [], [], []];
    assert PutChar(t, c).lines[5] == [Cell(c, t.style)];
  }

  /** CUP to row 3, column 4 (1-based), then DSR 6: the reply is exactly ESC [ 3 ; 4 R. */
  lemma CursorReportScenario(s: Screen)
    requires Bounded(s) && s.pending == []
    ensures Run(s, [CsiDispatch([3, 4], 'H'), CsiDispatch([6], 'n')]).pending
         == [[0x1B, 0x5B, 0x33, 0x3B, 0x34, 0x52]]
  {
    CursorPositionEffect(s, [3, 4]);
    assert GetParam([3, 4], 0, 1) == 3 && GetParam([3, 4], 1, 1) == 4;
    var s1 := Csi(s, [3, 4], 'H');
    assert s1.cursorRow == 2 && s1.cursorCol == 3 && s1.pending == [];
    QueryReplies(s1, [6]);
    assert GetParam([6], 0, 0) == 6;
    assert Decimal.DigitBytes(3) == [0x33];
    assert Decimal.DigitBytes(4) == [0x34];
    var a, b := CsiDispatch([3, 4], 'H'), CsiDispatch([6], 'n');
    RunSnoc(s, [], a);
    RunSnoc(s, [a], b);
    assert [] + [a] == [a] && [a] + [b] == [a, b];
    assert Run(s, [a]) == s1;
    assert Run(s, [a, b]) == Csi(s1, [6], 'n');
    assert Csi(s1, [6], 'n').pending == [CursorPositionReply(3, 4)];
    assert CursorPositionReply(3, 4) == [0x1B, 0x5B] + [0x33] + [0x3B] + [0x34] + [0x52];
    var want: seq<Byte> := [0x1B, 0x5B, 0x33, 0x3B, 0x34, 0x52];
    assert CursorPositionReply(3, 4) == want;
    assert Run(s, [a, b]).pending == [want];
  }

  /** CUP to column 2500 lands on column 1999, so a printed character goes to cell 1999. */
  lemma ColumnClampScenario(s: Screen)
    requires Bounded(s)
    ensures var r := Run(s, [CsiDispatch([1, 2500], 'H'), Print('x')]);
      r.cursorRow == 0 && |r.lines[0]| == Max(|Step(s, CsiDispatch([1, 2500], 'H')).lines[0]|, MaxLineWidth)
      && r.lines[0][MaxLineWidth - 1].c == 'x'
  {
    var a, b := CsiDispatch([1, 2500], 'H'), Print('x');
    var s1 := Csi(s, [1, 2500], 'H');
    CursorPositionEffect(s, [1, 2500]);
    assert GetParam([1, 2500], 1, 1) == 2500;
    assert s1.cursorRow == 0 && s1.cursorCol == MaxLineWidth - 1;
    assert Bounded(s1) by {
      assert s1 == CursorPosition(s, [1, 2500]);
    }
    RunSnoc(s, [], a);
    RunSnoc(s, [a], b);
    assert [] + [a] == [a] && [a] + [b] == [a, b];
    assert Run(s, [a, b]) == PutChar(s1, 'x');
    PutCharOverwrites(s1, 'x');
  }
}
