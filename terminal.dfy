/**
 * The terminal buffer of one process: the mutable emulator state the escape
 * parser's callbacks update in place. Every operation is proved against the
 * function of the same name in `Emulator`, so everything proved there about
 * a `Screen` holds of `Snapshot()` after the call.
 *
 * The byte-level parser that turns output bytes into callbacks is a foreign
 * library; `Write` therefore takes the callbacks it would make.
 */
module Terminal {
  import opened Wrappers
  import opened Styles
  import opened Emulator

  class TerminalBuffer {
    var lines: seq<Line>
    var cursorRow: nat
    var cursorCol: nat
    var cols: nat
    var rows: nat
    var currentStyle: Style
    var savedCursor: Option<(nat, nat)>
    var pendingResponses: seq<seq<Byte>>

    /** The whole state as a value. */
    function Snapshot(): Screen
      reads this
    {
      Screen(lines, cursorRow, cursorCol, cols, rows, currentStyle, savedCursor, pendingResponses)
    }

    /** The line store is never empty and never exceeds the scrollback cap. */
    predicate Valid()
      reads this
    {
      Bounded(Snapshot())
    }

    /** One empty line, cursor at the origin, default style, nothing saved or pending. */
    constructor (cols: nat, rows: nat)
      ensures Valid()
      ensures Snapshot() == Emulator.New(cols, rows)
      ensures lines == [[]] && cursorRow == 0 && cursorCol == 0
      ensures savedCursor == None && pendingResponses == []
    {
      lines := [[]];
      cursorRow := 0;
      cursorCol := 0;
      this.cols := cols;
      this.rows := rows;
      currentStyle := DefaultStyle;
      savedCursor := None;
      pendingResponses := [];
    }

    method Resize(cols: nat, rows: nat)
      requires Valid()
      modifies this
      ensures Valid()
      ensures Snapshot() == old(Snapshot()).(cols := cols, rows := rows)
    {
      this.cols := cols;
      this.rows := rows;
    }

    /** Append empty lines until `row` exists, then drop from the front down to the cap. */
    method EnsureRow(row: nat)
      requires Valid()
      modifies this
      ensures Valid()
      ensures Snapshot() == Emulator.EnsureRow(old(Snapshot()), row)
    {
      ghost var s0 := Snapshot();
      while |lines| <= row
        invariant |s0.lines| <= |lines| && lines == s0.lines + EmptyLines(|lines| - |s0.lines|)
        invariant |s0.lines| <= row ==> |lines| <= row + 1
        invariant |s0.lines| > row ==> lines == s0.lines
        invariant Snapshot() == s0.(lines := lines)
        decreases row + 1 - |lines|
      {
        lines := lines + [[]];
        assert lines == s0.lines + EmptyLines(|lines| - |s0.lines|);
      }
      ghost var grown := lines;
      assert grown == if |s0.lines| <= row then s0.lines + EmptyLines(row + 1 - |s0.lines|) else s0.lines;
      ghost var drop := if |grown| > MaxScrollback then |grown| - MaxScrollback else 0;
      ghost var dropped := 0;
      while |lines| > MaxScrollback
        invariant dropped <= drop && lines == grown[dropped..]
        invariant cursorRow == SatSub(s0.cursorRow, dropped)
        invariant Snapshot() == s0.(lines := lines, cursorRow := cursorRow)
        decreases |lines|
      {
        lines := lines[1..];
        if cursorRow > 0 {
          cursorRow := cursorRow - 1;
        }
        dropped := dropped + 1;
      }
    }

    /** Make the cursor's row exist and pad it with blanks until `col` exists. */
    method EnsureCol(col: nat)
      requires Valid()
      modifies this
      ensures Valid()
      ensures Snapshot() == Emulator.EnsureCol(old(Snapshot()), col)
    {
      EnsureRow(cursorRow);
      var line := lines[cursorRow];
      ghost var line0 := line;
      while |line| <= col
        invariant |line0| <= |line| <= Max(|line0|, col + 1)
        invariant line == line0 + seq(|line| - |line0|, _ => Blank)
        decreases col + 1 - |line|
      {
        line := line + [Blank];
        assert line == line0 + seq(|line| - |line0|, _ => Blank);
      }
      assert line == PadTo(line0, col);
      lines := lines[cursorRow := line];
    }

    method Newline()
      requires Valid()
      modifies this
      ensures Valid()
      ensures Snapshot() == Emulator.Newline(old(Snapshot()))
    {
      cursorRow := cursorRow + 1;
      cursorCol := 0;
      EnsureRow(cursorRow);
    }

    /** Overwrite the cell under the cursor and advance the column (no wrap, no clamp). */
    method PutChar(c: char)
      requires Valid()
      modifies this
      ensures Valid()
      ensures Snapshot() == Emulator.PutChar(old(Snapshot()), c)
    {
      EnsureCol(cursorCol);
      lines := lines[cursorRow := lines[cursorRow][cursorCol := Cell(c, currentStyle)]];
      cursorCol := cursorCol + 1;
    }

    method ClearLineFrom(col: nat)
      requires Valid()
      modifies this
      ensures Valid()
      ensures Snapshot() == Emulator.ClearLineFrom(old(Snapshot()), col)
    {
      EnsureRow(cursorRow);
      var line := lines[cursorRow];
      if col < |line| {
        lines := lines[cursorRow := line[..col]];
      }
    }

    /** Truncate the cursor's row at the cursor, then pop every line below it. */
    method ClearScreenFromCursor()
      requires Valid()
      modifies this
      ensures Valid()
      ensures Snapshot() == Emulator.ClearScreenFromCursor(old(Snapshot()))
    {
      ClearLineFrom(cursorCol);
      ghost var s1 := Snapshot();
      while |lines| > cursorRow + 1
        invariant cursorRow + 1 <= |lines| <= |s1.lines|
        invariant lines == s1.lines[..|lines|]
        invariant Snapshot() == s1.(lines := lines)
        decreases |lines|
      {
        lines := lines[..|lines| - 1];
      }
    }

    method ClearScreen()
      requires Valid()
      modifies this
      ensures Valid()
      ensures Snapshot() == Emulator.ClearScreen(old(Snapshot()))
    {
      lines := [[]];
      cursorRow := 0;
      cursorCol := 0;
    }

    /** Apply SGR parameters left to right; an empty list resets the style. */
    method ParseSgr(params: seq<U16>)
      requires Valid()
      modifies this
      ensures Valid()
      ensures Snapshot() == old(Snapshot()).(style := Sgr(old(currentStyle), params))
    {
      if params == [] {
        currentStyle := DefaultStyle;
        return;
      }
      var st := currentStyle;
      var i := 0;
      while i < |params|
        invariant i <= |params|
        invariant SgrFrom(st, params, i) == SgrFrom(old(currentStyle), params, 0)
        decreases |params| - i
      {
        ghost var step, i0 := SgrCode(st, params, i), i;
        var code := params[i];
        if code == 0 {
          st := DefaultStyle;
        } else if code == 1 {
          st := AddModifier(st, {Bold});
        } else if code == 2 {
          st := AddModifier(st, {Dim});
        } else if code == 3 {
          st := AddModifier(st, {Italic});
        } else if code == 4 {
          st := AddModifier(st, {Underlined});
        } else if code == 5 || code == 6 {
          st := AddModifier(st, {SlowBlink});
        } else if code == 7 {
          st := AddModifier(st, {Reversed});
        } else if code == 8 {
          st := AddModifier(st, {Hidden});
        } else if code == 9 {
          st := AddModifier(st, {CrossedOut});
        } else if code == 22 {
          st := RemoveModifier(st, {Bold, Dim});
        } else if code == 23 {
          st := RemoveModifier(st, {Italic});
        } else if code == 24 {
          st := RemoveModifier(st, {Underlined});
        } else if code == 25 {
          st := RemoveModifier(st, {SlowBlink});
        } else if code == 27 {
          st := RemoveModifier(st, {Reversed});
        } else if code == 28 {
          st := RemoveModifier(st, {Hidden});
        } else if code == 29 {
          st := RemoveModifier(st, {CrossedOut});
        } else if 30 <= code <= 37 {
          st := st.(fg := Some(AnsiToColor(code - 30)));
        } else if code == 38 || code == 48 {
          var color: Option<Color> := None;
          if i + 2 < |params| && params[i + 1] == 5 {
            color := Some(Indexed(params[i + 2] % 256));
            i := i + 2;
          } else if i + 4 < |params| && params[i + 1] == 2 {
            color := Some(Rgb(params[i + 2] % 256, params[i + 3] % 256, params[i + 4] % 256));
            i := i + 4;
          }
          if color.Some? {
            st := if code == 38 then st.(fg := color) else st.(bg := color);
          }
        } else if code == 39 {
          st := st.(fg := Some(Reset));
        } else if 40 <= code <= 47 {
          st := st.(bg := Some(AnsiToColor(code - 40)));
        } else if code == 49 {
          st := st.(bg := Some(Reset));
        } else if 90 <= code <= 97 {
          st := st.(fg := Some(BrightAnsiToColor(code - 90)));
        } else if 100 <= code <= 107 {
          st := st.(bg := Some(BrightAnsiToColor(code - 100)));
        }
        i := i + 1;
        assert st == step.0 && i == i0 + 1 + step.1;
      }
      currentStyle := st;
    }

    /** The `print` callback. */
    method Print(c: char)
      requires Valid()
      modifies this
      ensures Valid()
      ensures Snapshot() == Step(old(Snapshot()), Action.Print(c))
    {
      PutChar(c);
    }

    /** The `execute` callback: BS, HT, LF/VT/FF and CR; other C0 bytes are ignored. */
    method Execute(b: Byte)
      requires Valid()
      modifies this
      ensures Valid()
      ensures Snapshot() == Step(old(Snapshot()), Control(b))
    {
      if b == 0x08 {
        if cursorCol > 0 {
          cursorCol := cursorCol - 1;
        }
      } else if b == 0x09 {
        var nextTab := NextTabStop(cursorCol);
        cursorCol := Min(nextTab, MaxLineWidth - 1);
      } else if b == 0x0A || b == 0x0B || b == 0x0C {
        Newline();
      } else if b == 0x0D {
        cursorCol := 0;
      }
    }

    /** The `csi_dispatch` callback, with the parameters flattened. */
    method CsiDispatch(params: seq<U16>, action: char)
      requires Valid()
      modifies this
      ensures Valid()
      ensures Snapshot() == Step(old(Snapshot()), Action.CsiDispatch(params, action))
    {
      if 'A' <= action <= 'G' {
        MoveCursor(params, action);
        return;
      }
      match action
      case 'H' =>
        CursorPosition(params);
      case 'f' =>
        CursorPosition(params);
      case 'J' =>
        var mode := GetParam(params, 0, 0);
        if mode == 0 {
          ClearScreenFromCursor();
        } else if mode == 2 || mode == 3 {
          ClearScreen();
        }
      case 'K' =>
        EraseInLine(GetParam(params, 0, 0));
      case 'm' =>
        ParseSgr(params);
      case 's' =>
        savedCursor := Some((cursorRow, cursorCol));
      case 'u' =>
        if savedCursor.Some? {
          cursorRow := savedCursor.value.0;
          cursorCol := savedCursor.value.1;
        }
      case 'c' =>
        pendingResponses := pendingResponses + [DeviceAttributesReply];
      case 'n' =>
        var mode := GetParam(params, 0, 0);
        if mode == 5 {
          pendingResponses := pendingResponses + [StatusOkReply];
        } else if mode == 6 {
          var response := CursorPositionReply(cursorRow + 1, cursorCol + 1);
          pendingResponses := pendingResponses + [response];
        }
      case _ =>
    }

    /** CUU, CUD, CUF, CUB, CNL, CPL and CHA: relative and column-absolute cursor moves. */
    method MoveCursor(params: seq<U16>, action: char)
      requires Valid() && 'A' <= action <= 'G'
      modifies this
      ensures Valid()
      ensures Snapshot() == Csi(old(Snapshot()), params, action)
    {
      if action == 'A' {
        cursorRow := SatSub(cursorRow, GetParam(params, 0, 1));
      } else if action == 'B' {
        cursorRow := cursorRow + GetParam(params, 0, 1);
        EnsureRow(cursorRow);
      } else if action == 'C' {
        cursorCol := Min(cursorCol + GetParam(params, 0, 1), MaxLineWidth - 1);
      } else if action == 'D' {
        cursorCol := SatSub(cursorCol, GetParam(params, 0, 1));
      } else if action == 'E' {
        cursorRow := cursorRow + GetParam(params, 0, 1);
        cursorCol := 0;
        EnsureRow(cursorRow);
      } else if action == 'F' {
        cursorRow := SatSub(cursorRow, GetParam(params, 0, 1));
        cursorCol := 0;
      } else {
        cursorCol := Min(SatSub(GetParam(params, 0, 1), 1), MaxLineWidth - 1);
      }
    }

    /** CUP / HVP. */
    method CursorPosition(params: seq<U16>)
      requires Valid()
      modifies this
      ensures Valid()
      ensures Snapshot() == Emulator.CursorPosition(old(Snapshot()), params)
    {
      var row := SatSub(GetParam(params, 0, 1), 1);
      var col := SatSub(GetParam(params, 1, 1), 1);
      cursorRow := row;
      cursorCol := Min(col, MaxLineWidth - 1);
      EnsureRow(cursorRow);
    }

    /** EL with its mode already read (missing means 0). */
    method EraseInLine(mode: U16)
      requires Valid()
      modifies this
      ensures Valid()
      ensures Snapshot() == Csi(old(Snapshot()), [mode], 'K')
    {
      if mode == 0 {
        ClearLineFrom(cursorCol);
      } else if mode == 1 {
        EnsureRow(cursorRow);
        ghost var s1 := Snapshot();
        ghost var line0 := lines[cursorRow];
        assert BlankPrefix(line0, 0) == line0;
        for i := 0 to cursorCol + 1
          invariant Snapshot() == s1.(lines := lines)
          invariant lines == s1.lines[cursorRow := BlankPrefix(line0, i)]
        {
          assert BlankPrefix(line0, i + 1)
              == if i < |line0| then BlankPrefix(line0, i)[i := Blank] else BlankPrefix(line0, i);
          if i < |lines[cursorRow]| {
            lines := lines[cursorRow := lines[cursorRow][i := Blank]];
          }
        }
      } else if mode == 2 {
        EnsureRow(cursorRow);
        lines := lines[cursorRow := []];
      }
    }

    /** One parser callback; the DCS, OSC and plain ESC callbacks do nothing. */
    method Perform(a: Action)
      requires Valid()
      modifies this
      ensures Valid()
      ensures Snapshot() == Step(old(Snapshot()), a)
    {
      match a
      case Print(c) => Print(c);
      case Control(b) => Execute(b);
      case CsiDispatch(p, final) => CsiDispatch(p, final);
      case Ignored =>
    }

    /** Feed the callbacks the parser makes for a chunk of output, in order. */
    method Write(actions: seq<Action>)
      requires Valid()
      modifies this
      ensures Valid()
      ensures Snapshot() == Run(old(Snapshot()), actions)
    {
      ghost var s0 := Snapshot();
      for i := 0 to |actions|
        invariant Valid()
        invariant Snapshot() == Run(s0, actions[..i])
      {
        assert actions[..i + 1][..i] == actions[..i];
        Perform(actions[i]);
      }
      assert actions[..|actions|] == actions;
    }

    /**
     * The number of lines once trailing empty lines are cut off, but at
     * least 1: every line at or beyond it is empty, the one before it is not.
     */
    method ContentLineCount() returns (count: nat)
      requires Valid()
      ensures count == Emulator.ContentLineCount(lines)
      ensures 1 <= count <= |lines|
      ensures forall i :: count <= i < |lines| ==> lines[i] == []
      ensures count > 1 ==> lines[count - 1] != []
    {
      count := |lines|;
      assert lines[..count] == lines;
      while count > 0 && lines[count - 1] == []
        invariant count <= |lines|
        invariant TrimmedLength(lines[..count]) == TrimmedLength(lines)
        invariant forall i :: count <= i < |lines| ==> lines[i] == []
      {
        assert lines[..count][..count - 1] == lines[..count - 1];
        count := count - 1;
      }
      assert lines[..|lines|] == lines;
      count := Max(count, 1);
    }

    /** Hand over the queued replies, oldest first, and empty the queue. */
    method TakePendingResponses() returns (responses: seq<seq<Byte>>)
      requires Valid()
      modifies this
      ensures Valid()
      ensures responses == old(pendingResponses)
      ensures Snapshot() == old(Snapshot()).(pending := [])
    {
      responses := pendingResponses;
      pendingResponses := [];
    }
  }
}
