/**
 * The terminal-emulation state of one process, as a value, and the effect of
 * each parser callback on it. This is the specification that the imperative
 * `Terminal.TerminalBuffer` is proved against, and the place where the
 * emulator's promises (scrollback cap, column cap, overwrite semantics,
 * erase modes, SGR, query replies) are stated and proved.
 */
module Emulator {
  import opened Wrappers
  import opened Styles
  import Decimal

  /** Oldest lines are dropped beyond this many. */
  const MaxScrollback: nat := 10000
  /** Cursor movement never puts the column at or beyond this. */
  const MaxLineWidth: nat := 2000

  type Byte = x: int | 0 <= x < 256
  type U16 = x: int | 0 <= x < 0x1_0000

  datatype Cell = Cell(c: char, style: Style)

  /** The cell used for padding and for erasing. */
  const Blank: Cell := Cell(' ', DefaultStyle)

  type Line = seq<Cell>

  /**
   * Everything the emulator keeps: the scrollback lines, the cursor, the
   * geometry it was told about, the running SGR style, the saved cursor and
   * the replies waiting to be written back to the program.
   */
  datatype Screen = Screen(
    lines: seq<Line>,
    cursorRow: nat,
    cursorCol: nat,
    cols: nat,
    rows: nat,
    style: Style,
    saved: Option<(nat, nat)>,
    pending: seq<seq<Byte>>)

  /**
   * One callback of the escape-sequence parser: a printable character, a C0
   * control byte, a CSI sequence with its (flattened) numeric parameters and
   * final character, or one of the callbacks the emulator ignores (DCS hooks,
   * OSC and plain ESC sequences).
   */
  datatype Action = Print(c: char) | Control(byte: Byte) | CsiDispatch(params: seq<U16>, final: char) | Ignored

  /** The line store is never empty and never longer than the scrollback cap. */
  predicate Bounded(s: Screen) { 1 <= |s.lines| <= MaxScrollback }

  function New(cols: nat, rows: nat): Screen
  {
    Screen([[]], 0, 0, cols, rows, DefaultStyle, None, [])
  }

  function EmptyLines(n: nat): (r: seq<Line>)
    ensures |r| == n && forall i :: 0 <= i < n ==> r[i] == []
  {
    seq(n, _ => [])
  }

  /**
   * Grow the store until `row` exists, then drop lines from the front until
   * the cap holds, moving the cursor up (saturating) once per dropped line.
   */
  function EnsureRow(s: Screen, row: nat): (r: Screen)
    ensures Bounded(r)
    ensures |r.lines| == Min(Max(|s.lines|, row + 1), MaxScrollback)
    ensures r.cursorRow == SatSub(s.cursorRow, Max(|s.lines|, row + 1) - |r.lines|)
    ensures s.cursorRow <= row ==> r.cursorRow < |r.lines|
    ensures r == s.(lines := r.lines, cursorRow := r.cursorRow)
  {
    var grown := if |s.lines| <= row then s.lines + EmptyLines(row + 1 - |s.lines|) else s.lines;
    var drop := if |grown| > MaxScrollback then |grown| - MaxScrollback else 0;
    s.(lines := grown[drop..], cursorRow := SatSub(s.cursorRow, drop))
  }

  function PadTo(line: Line, col: nat): (r: Line)
    ensures col < |r| && |r| == Max(|line|, col + 1)
    ensures r[..|line|] == line
    ensures forall j :: |line| <= j < |r| ==> r[j] == Blank
  {
    if |line| <= col then line + seq(col + 1 - |line|, _ => Blank) else line
  }

  /** Make the cursor's row exist, then pad that row with blanks until `col` exists. */
  function EnsureCol(s: Screen, col: nat): (r: Screen)
    ensures Bounded(r)
    ensures r.cursorRow < |r.lines| && col < |r.lines[r.cursorRow]|
    ensures r == s.(lines := r.lines, cursorRow := r.cursorRow)
  {
    var s1 := EnsureRow(s, s.cursorRow);
    s1.(lines := s1.lines[s1.cursorRow := PadTo(s1.lines[s1.cursorRow], col)])
  }

  function Newline(s: Screen): (r: Screen)
    ensures Bounded(r) && r.cursorRow < |r.lines| && r.cursorCol == 0
  {
    EnsureRow(s.(cursorRow := s.cursorRow + 1, cursorCol := 0), s.cursorRow + 1)
  }

  /** Overwrite the cell under the cursor with `c` in the current style and advance one column. */
  function PutChar(s: Screen, c: char): (r: Screen)
    ensures Bounded(r) && r.cursorRow < |r.lines| && r.cursorCol == s.cursorCol + 1
  {
    var s1 := EnsureCol(s, s.cursorCol);
    s1.(lines := s1.lines[s1.cursorRow := s1.lines[s1.cursorRow][s.cursorCol := Cell(c, s.style)]],
        cursorCol := s.cursorCol + 1)
  }

  /** Truncate the cursor's row to `col` cells (no change if it is not that long). */
  function ClearLineFrom(s: Screen, col: nat): (r: Screen)
    ensures Bounded(r) && r.cursorRow < |r.lines|
    ensures r == s.(lines := r.lines, cursorRow := r.cursorRow)
  {
    var s1 := EnsureRow(s, s.cursorRow);
    var line := s1.lines[s1.cursorRow];
    if col < |line| then s1.(lines := s1.lines[s1.cursorRow := line[..col]]) else s1
  }

  /** Erase in display, mode 0: truncate the cursor's row at the cursor and drop every row below. */
  function ClearScreenFromCursor(s: Screen): (r: Screen)
    ensures Bounded(r)
  {
    var s1 := ClearLineFrom(s, s.cursorCol);
    if |s1.lines| > s1.cursorRow + 1 then s1.(lines := s1.lines[..s1.cursorRow + 1]) else s1
  }

  function ClearScreen(s: Screen): (r: Screen)
    ensures Bounded(r)
  {
    s.(lines := [[]], cursorRow := 0, cursorCol := 0)
  }

  /** Blank the cells `0..n` of a line that exist, without lengthening it. */
  function BlankPrefix(line: Line, n: nat): (r: Line)
    ensures |r| == |line|
  {
    seq(|line|, j requires 0 <= j < |line| => if j < n then Blank else line[j])
  }

  // ---------------------------------------------------------------- SGR

  /**
   * The 256-colour (`5;n`) and true-colour (`2;r;g;b`) forms that follow an
   * SGR 38 or 48 at position `i`, with the number of extra parameters they
   * consume; None when neither form is complete. Parameters are 16-bit and
   * are cut to 8 bits, as a Rust `as u8` cast does.
   */
  function ExtendedColor(p: seq<U16>, i: nat): (r: Option<(Color, nat)>)
    requires i < |p|
    ensures r.Some? ==> i + 1 + r.value.1 <= |p|
  {
    if i + 2 < |p| && p[i + 1] == 5 then Some((Indexed(p[i + 2] % 256), 2))
    else if i + 4 < |p| && p[i + 1] == 2 then Some((Rgb(p[i + 2] % 256, p[i + 3] % 256, p[i + 4] % 256), 4))
    else None
  }

  /** The effect of the SGR parameter at position `i`, and how many parameters after it it consumes. */
  function SgrCode(st: Style, p: seq<U16>, i: nat): (r: (Style, nat))
    requires i < |p|
    ensures i + 1 + r.1 <= |p|
  {
    var code := p[i];
    if code == 0 then (DefaultStyle, 0)
    else if code == 1 then (AddModifier(st, {Bold}), 0)
    else if code == 2 then (AddModifier(st, {Dim}), 0)
    else if code == 3 then (AddModifier(st, {Italic}), 0)
    else if code == 4 then (AddModifier(st, {Underlined}), 0)
    else if code == 5 || code == 6 then (AddModifier(st, {SlowBlink}), 0)
    else if code == 7 then (AddModifier(st, {Reversed}), 0)
    else if code == 8 then (AddModifier(st, {Hidden}), 0)
    else if code == 9 then (AddModifier(st, {CrossedOut}), 0)
    else if code == 22 then (RemoveModifier(st, {Bold, Dim}), 0)
    else if code == 23 then (RemoveModifier(st, {Italic}), 0)
    else if code == 24 then (RemoveModifier(st, {Underlined}), 0)
    else if code == 25 then (RemoveModifier(st, {SlowBlink}), 0)
    else if code == 27 then (RemoveModifier(st, {Reversed}), 0)
    else if code == 28 then (RemoveModifier(st, {Hidden}), 0)
    else if code == 29 then (RemoveModifier(st, {CrossedOut}), 0)
    else if 30 <= code <= 37 then (st.(fg := Some(AnsiToColor(code - 30))), 0)
    else if code == 38 then
      (match ExtendedColor(p, i)
       case Some((c, k)) => (st.(fg := Some(c)), k)
       case None => (st, 0))
    else if code == 39 then (st.(fg := Some(Reset)), 0)
    else if 40 <= code <= 47 then (st.(bg := Some(AnsiToColor(code - 40))), 0)
    else if code == 48 then
      (match ExtendedColor(p, i)
       case Some((c, k)) => (st.(bg := Some(c)), k)
       case None => (st, 0))
    else if code == 49 then (st.(bg := Some(Reset)), 0)
    else if 90 <= code <= 97 then (st.(fg := Some(BrightAnsiToColor(code - 90))), 0)
    else if 100 <= code <= 107 then (st.(bg := Some(BrightAnsiToColor(code - 100))), 0)
    else (st, 0)
  }

  /** Apply the SGR parameters from position `i` on, left to right. */
  function SgrFrom(st: Style, p: seq<U16>, i: nat): Style
    decreases |p| - i
  {
    if i >= |p| then st
    else
      var (st', k) := SgrCode(st, p, i);
      SgrFrom(st', p, i + 1 + k)
  }

  /** SGR with no parameters at all is a reset. */
  function Sgr(st: Style, p: seq<U16>): Style
  {
    if p == [] then DefaultStyle else SgrFrom(st, p, 0)
  }

  // ---------------------------------------------------------------- C0 controls

  /** `(col + 8) & !7`: clear the low three bits of col + 8. */
  function NextTabStop(col: nat): nat
  {
    (col + 8) - (col + 8) % 8
  }

  function Execute(s: Screen, b: Byte): (r: Screen)
  {
    if b == 0x08 then s.(cursorCol := SatSub(s.cursorCol, 1))
    else if b == 0x09 then s.(cursorCol := Min(NextTabStop(s.cursorCol), MaxLineWidth - 1))
    else if b == 0x0A || b == 0x0B || b == 0x0C then Newline(s)
    else if b == 0x0D then s.(cursorCol := 0)
    else s
  }

  // ---------------------------------------------------------------- CSI

  /** Parameter `i`, or `default` when it is missing or zero. */
  function GetParam(p: seq<U16>, i: nat, default: U16): (v: U16)
    ensures i < |p| && p[i] != 0 ==> v == p[i]
    ensures !(i < |p| && p[i] != 0) ==> v == default
  {
    if i < |p| && p[i] != 0 then p[i] else default
  }

  /** Device Attributes reply: ESC [ ? 1 ; 2 c (a VT100 with advanced video option). */
  const DeviceAttributesReply: seq<Byte> := [0x1B, 0x5B, 0x3F, 0x31, 0x3B, 0x32, 0x63]

  /** Device Status Report 5 reply: ESC [ 0 n ("terminal OK"). */
  const StatusOkReply: seq<Byte> := [0x1B, 0x5B, 0x30, 0x6E]

  /** Cursor Position Report: ESC [ row ; col R, both 1-based decimal. */
  function CursorPositionReply(row: nat, col: nat): seq<Byte>
  {
    [0x1B, 0x5B] + Decimal.DigitBytes(row) + [0x3B] + Decimal.DigitBytes(col) + [0x52]
  }

  function Csi(s: Screen, p: seq<U16>, final: char): Screen
  {
    match final
    case 'A' =>
      s.(cursorRow := SatSub(s.cursorRow, GetParam(p, 0, 1)))
    case 'B' =>
      var row := s.cursorRow + GetParam(p, 0, 1);
      EnsureRow(s.(cursorRow := row), row)
    case 'C' =>
      s.(cursorCol := Min(s.cursorCol + GetParam(p, 0, 1), MaxLineWidth - 1))
    case 'D' =>
      s.(cursorCol := SatSub(s.cursorCol, GetParam(p, 0, 1)))
    case 'E' =>
      var row := s.cursorRow + GetParam(p, 0, 1);
      EnsureRow(s.(cursorRow := row, cursorCol := 0), row)
    case 'F' =>
      s.(cursorRow := SatSub(s.cursorRow, GetParam(p, 0, 1)), cursorCol := 0)
    case 'G' =>
      s.(cursorCol := Min(SatSub(GetParam(p, 0, 1), 1), MaxLineWidth - 1))
    case 'H' => CursorPosition(s, p)
    case 'f' => CursorPosition(s, p)
    case 'J' =>
      var mode := GetParam(p, 0, 0);
      if mode == 0 then ClearScreenFromCursor(s)
      else if mode == 2 || mode == 3 then ClearScreen(s)
      else s
    case 'K' =>
      var mode := GetParam(p, 0, 0);
      if mode == 0 then ClearLineFrom(s, s.cursorCol)
      else if mode == 1 then
        var s1 := EnsureRow(s, s.cursorRow);
        s1.(lines := s1.lines[s1.cursorRow := BlankPrefix(s1.lines[s1.cursorRow], s1.cursorCol + 1)])
      else if mode == 2 then
        var s1 := EnsureRow(s, s.cursorRow);
        s1.(lines := s1.lines[s1.cursorRow := []])
      else s
    case 'm' => s.(style := Sgr(s.style, p))
    case 's' => s.(saved := Some((s.cursorRow, s.cursorCol)))
    case 'u' =>
      (match s.saved
       case Some((row, col)) => s.(cursorRow := row, cursorCol := col)
       case None => s)
    case 'c' => s.(pending := s.pending + [DeviceAttributesReply])
    case 'n' =>
      var mode := GetParam(p, 0, 0);
      if mode == 5 then s.(pending := s.pending + [StatusOkReply])
      else if mode == 6 then s.(pending := s.pending + [CursorPositionReply(s.cursorRow + 1, s.cursorCol + 1)])
      else s
    case _ => s
  }

  /** CUP / HVP: 1-based row and column, the column capped. */
  function CursorPosition(s: Screen, p: seq<U16>): Screen
  {
    var row := SatSub(GetParam(p, 0, 1), 1);
    var col := SatSub(GetParam(p, 1, 1), 1);
    EnsureRow(s.(cursorRow := row, cursorCol := Min(col, MaxLineWidth - 1)), row)
  }

  // ---------------------------------------------------------------- the fold

  function Step(s: Screen, a: Action): Screen
  {
    match a
    case Print(c) => PutChar(s, c)
    case Control(b) => Execute(s, b)
    case CsiDispatch(p, final) => Csi(s, p, final)
    case Ignored => s
  }

  /** The state after feeding `acts` in order. */
  function Run(s: Screen, acts: seq<Action>): Screen
    decreases |acts|
  {
    if acts == [] then s else Step(Run(s, acts[..|acts| - 1]), acts[|acts| - 1])
  }

  // ---------------------------------------------------------------- content extent

  /** Length of `lines` once trailing empty lines are cut off. */
  function TrimmedLength(lines: seq<Line>): (n: nat)
    ensures n <= |lines|
  {
    if |lines| > 0 && lines[|lines| - 1] == [] then TrimmedLength(lines[..|lines| - 1]) else |lines|
  }

  /** Line count excluding trailing empty lines, but at least 1. */
  function ContentLineCount(lines: seq<Line>): nat
  {
    Max(TrimmedLength(lines), 1)
  }

  /** Display rows one line needs when wrapped at `width`: ceil(len/width), and 1 for an empty line. */
  function LineRows(line: Line, width: nat): nat
    requires width > 0
  {
    if line == [] then 1 else (|line| + width - 1) / width
  }

  /** Display rows all of `lines` need when wrapped at `width`. */
  function WrappedRowCount(lines: seq<Line>, width: nat): nat
    requires width > 0
  {
    if lines == [] then 0 else WrappedRowCount(lines[..|lines| - 1], width) + LineRows(lines[|lines| - 1], width)
  }
}
