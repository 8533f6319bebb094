/**
 * Keyboard input. While the help popup is shown any key only closes it.
 * In Normal mode keys drive the process list and the selected process's
 * scrolling; in Focus mode keys are encoded as the bytes a terminal would
 * send and written to the selected process's PTY, except the keys that
 * leave focus.
 */
module Handler {
  import opened Wrappers
  import opened Arith
  import opened Emulator
  import opened Supervisor
  import opened Manager
  import opened OutputPanel
  import opened App
  import opened Mouse

  datatype KeyCode =
    | Char(c: char)
    | Enter | Tab | BackTab | Backspace | Delete | Esc
    | Up | Down | Right | Left | Home | End | PageUp | PageDown | Insert
    | F(n: nat)
    | OtherKey

  /** A key with the two modifiers the handlers look at. */
  datatype KeyEvent = KeyEvent(code: KeyCode, ctrl: bool, alt: bool)

  // ---------------------------------------------------------------- key encoding

  const EscByte: Byte := 0x1B

  /** ASCII upper-case letters become lower-case; every other character is kept. */
  function AsciiLower(c: char): (r: char)
    ensures 'A' <= c <= 'Z' ==> r as int == c as int + 0x20
    ensures !('A' <= c <= 'Z') ==> r == c
  {
    if 'A' <= c <= 'Z' then (c as int + 0x20) as char else c
  }

  /** A character cast to a byte: its code point's low eight bits. */
  function LowByte(c: char): Byte
  {
    (c as int) % 256
  }

  /** The control byte for a character: its lower-cased low byte minus 0x60, stopping at 0. */
  function CtrlByte(c: char): (b: Byte)
    ensures 'a' <= c <= 'z' ==> b == c as int - 0x60 && 1 <= b <= 26
    ensures 'A' <= c <= 'Z' ==> b == c as int - 0x40 && 1 <= b <= 26
  {
    SatSub(LowByte(AsciiLower(c)), 0x60)
  }

  /** The UTF-8 encoding of a character: one to four bytes by the size of its code point. */
  function Utf8(c: char): (b: seq<Byte>)
    ensures 1 <= |b| <= 4
    ensures |b| == 1 <==> c as int < 0x80
  {
    var n := c as int;
    if n < 0x80 then [n]
    else if n < 0x800 then [0xC0 + n / 64, 0x80 + n % 64]
    else if n < 0x10000 then [0xE0 + n / 4096, 0x80 + (n / 64) % 64, 0x80 + n % 64]
    else [0xF0 + n / 262144, 0x80 + (n / 4096) % 64, 0x80 + (n / 64) % 64, 0x80 + n % 64]
  }

  /** Whether a byte is a UTF-8 continuation byte. */
  predicate Continuation(b: Byte)
  {
    0x80 <= b < 0xC0
  }

  /** The code point a UTF-8 sequence of one to four bytes encodes. */
  function Utf8Value(b: seq<Byte>): int
  {
    if |b| == 1 then b[0] as int
    else if |b| == 2 then (b[0] as int - 0xC0) * 64 + (b[1] as int - 0x80)
    else if |b| == 3 then (b[0] as int - 0xE0) * 4096 + (b[1] as int - 0x80) * 64 + (b[2] as int - 0x80)
    else if |b| == 4 then
      (b[0] as int - 0xF0) * 262144 + (b[1] as int - 0x80) * 4096 + (b[2] as int - 0x80) * 64 + (b[3] as int - 0x80)
    else 0
  }

  /**
   * The encoding decodes back to the character, its lead byte announces
   * its length and every other byte is a continuation byte.
   */
  lemma Utf8RoundTrip(c: char)
    ensures Utf8Value(Utf8(c)) == c as int
    ensures var b := Utf8(c);
      && (|b| == 1 ==> b[0] < 0x80)
      && (|b| == 2 ==> 0xC0 <= b[0] < 0xE0)
      && (|b| == 3 ==> 0xE0 <= b[0] < 0xF0)
      && (|b| == 4 ==> 0xF0 <= b[0] < 0xF8)
      && forall i :: 1 <= i < |b| ==> Continuation(b[i])
  {
    var n := c as int;
    if 0x80 <= n {
      Utf8Digits(n);
    }
  }

  /**
   * The base-64 digits of a code point below 0x110000: the quotients by
   * 4096 and 262144 are the second and third digit-shifts, as the
   * multi-byte encodings need.
   */
  lemma Utf8Digits(n: nat)
    requires n < 0x110000
    ensures n == (n / 64) * 64 + n % 64
    ensures n / 4096 == (n / 64) / 64 && n % 4096 == ((n / 64) % 64) * 64 + n % 64
    ensures n / 262144 == (n / 4096) / 64
      && n % 262144 == ((n / 4096) % 64) * 4096 + ((n / 64) % 64) * 64 + n % 64
    ensures n / 262144 <= 4
  {
    var a, r0 := n / 64, n % 64;
    var b, r1 := a / 64, a % 64;
    var d, r2 := b / 64, b % 64;
    DivModUnique(n, 4096, b, r1 * 64 + r0);
    DivModUnique(n, 262144, d, r2 * 4096 + r1 * 64 + r0);
    DivModUnique(n / 4096, 64, d, r2);
  }

  /** The bytes a function key sends: F1 to F4 as SS3 sequences, F5 to F12 as CSI sequences, no others. */
  function FunctionKeyBytes(n: nat): (r: Option<seq<Byte>>)
    ensures r.Some? <==> 1 <= n <= 12
    ensures r.Some? ==> |r.value| >= 3 && r.value[0] == EscByte
  {
    if n == 1 then Some([EscByte, 'O' as Byte, 'P' as Byte])
    else if n == 2 then Some([EscByte, 'O' as Byte, 'Q' as Byte])
    else if n == 3 then Some([EscByte, 'O' as Byte, 'R' as Byte])
    else if n == 4 then Some([EscByte, 'O' as Byte, 'S' as Byte])
    else if n == 5 then Some([EscByte, '[' as Byte, '1' as Byte, '5' as Byte, '~' as Byte])
    else if n == 6 then Some([EscByte, '[' as Byte, '1' as Byte, '7' as Byte, '~' as Byte])
    else if n == 7 then Some([EscByte, '[' as Byte, '1' as Byte, '8' as Byte, '~' as Byte])
    else if n == 8 then Some([EscByte, '[' as Byte, '1' as Byte, '9' as Byte, '~' as Byte])
    else if n == 9 then Some([EscByte, '[' as Byte, '2' as Byte, '0' as Byte, '~' as Byte])
    else if n == 10 then Some([EscByte, '[' as Byte, '2' as Byte, '1' as Byte, '~' as Byte])
    else if n == 11 then Some([EscByte, '[' as Byte, '2' as Byte, '3' as Byte, '~' as Byte])
    else if n == 12 then Some([EscByte, '[' as Byte, '2' as Byte, '4' as Byte, '~' as Byte])
    else None
  }

  /** A control sequence ending in one character: ESC, '[', the character. */
  function Csi1(c: char): seq<Byte>
    requires c < 128 as char
  {
    [EscByte, '[' as Byte, c as Byte]
  }

  /** A control sequence ending in two characters: ESC, '[', the characters. */
  function Csi2(c: char, d: char): seq<Byte>
    requires c < 128 as char && d < 128 as char
  {
    [EscByte, '[' as Byte, c as Byte, d as Byte]
  }

  /**
   * The bytes a key sends to a PTY, or None for a key that sends nothing.
   * A character with Ctrl sends its control byte, with Alt prefixed by
   * ESC; with Alt alone ESC and its low byte; otherwise its UTF-8 bytes.
   * The modifiers do not change what the other keys send.
   */
  function KeyToBytes(key: KeyEvent): (r: Option<seq<Byte>>)
    ensures r.Some? ==> |r.value| >= 1
    ensures key.code.Char? ==> r.Some?
    ensures key.code.Char? && key.ctrl ==>
      r.value == (if key.alt then [EscByte, CtrlByte(key.code.c)] else [CtrlByte(key.code.c)])
    ensures key.code.Char? && !key.ctrl && key.alt ==> r.value == [EscByte, LowByte(key.code.c)]
    ensures key.code.Char? && !key.ctrl && !key.alt ==> r.value == Utf8(key.code.c)
  {
    match key.code
    case Char(c) =>
      if key.ctrl then Some(if key.alt then [EscByte, CtrlByte(c)] else [CtrlByte(c)])
      else if key.alt then Some([EscByte, LowByte(c)])
      else Some(Utf8(c))
    case Enter => Some([0x0D])
    case Tab => Some([0x09])
    case Backspace => Some([0x7F])
    case Delete => Some(Csi2('3', '~'))
    case Esc => Some([EscByte])
    case Up => Some(Csi1('A'))
    case Down => Some(Csi1('B'))
    case Right => Some(Csi1('C'))
    case Left => Some(Csi1('D'))
    case Home => Some(Csi1('H'))
    case End => Some(Csi1('F'))
    case PageUp => Some(Csi2('5', '~'))
    case PageDown => Some(Csi2('6', '~'))
    case Insert => Some(Csi2('2', '~'))
    case F(n) => FunctionKeyBytes(n)
    case BackTab => None
    case OtherKey => None
  }

  /**
   * The key that sends a byte sequence, among the keys that are not
   * characters: one-byte keys, CSI sequences with one final character,
   * CSI sequences ending in '~', then the function keys.
   */
  function SpecialKeyOf(b: seq<Byte>): Option<KeyCode>
  {
    if |b| == 1 then
      if b[0] == 0x0D then Some(Enter)
      else if b[0] == 0x09 then Some(Tab)
      else if b[0] == 0x7F then Some(Backspace)
      else if b[0] == EscByte then Some(Esc)
      else None
    else if |b| == 3 && b[0] == EscByte && b[1] == '[' as Byte then
      if b[2] == 'A' as Byte then Some(Up)
      else if b[2] == 'B' as Byte then Some(Down)
      else if b[2] == 'C' as Byte then Some(Right)
      else if b[2] == 'D' as Byte then Some(Left)
      else if b[2] == 'H' as Byte then Some(Home)
      else if b[2] == 'F' as Byte then Some(End)
      else None
    else if |b| == 4 && b[0] == EscByte && b[1] == '[' as Byte && b[3] == '~' as Byte then
      if b[2] == '3' as Byte then Some(Delete)
      else if b[2] == '5' as Byte then Some(PageUp)
      else if b[2] == '6' as Byte then Some(PageDown)
      else if b[2] == '2' as Byte then Some(Insert)
      else None
    else FunctionKeyOf(b)
  }

  /** The function key that sends a byte sequence: the first of F1 to F12 whose bytes they are. */
  function FunctionKeyOf(b: seq<Byte>): Option<KeyCode>
  {
    FunctionKeyFrom(b, 1)
  }

  /** The first of the function keys from F`n` to F12 that sends a byte sequence. */
  function FunctionKeyFrom(b: seq<Byte>, n: nat): Option<KeyCode>
    decreases 13 - n
  {
    if n > 12 then None
    else if FunctionKeyBytes(n) == Some(b) then Some(F(n))
    else FunctionKeyFrom(b, n + 1)
  }

  /** Function keys send distinct sequences. */
  lemma FunctionKeysDistinct(n: nat, m: nat)
    requires 1 <= n <= 12 && 1 <= m <= 12 && n != m
    ensures FunctionKeyBytes(n) != FunctionKeyBytes(m)
  {
    var bn, bm := FunctionKeyBytes(n).value, FunctionKeyBytes(m).value;
    if |bn| == |bm| && |bn| == 3 {
      assert bn[2] != bm[2];
    } else if |bn| == |bm| {
      assert bn[2] != bm[2] || bn[3] != bm[3];
    }
  }

  /** Searching from F`m` up finds F`n` by its bytes when `m` is at most `n`. */
  lemma {:induction false} FunctionKeyFound(n: nat, m: nat)
    requires 1 <= m <= n <= 12
    ensures FunctionKeyFrom(FunctionKeyBytes(n).value, m) == Some(F(n))
    decreases n - m
  {
    if m < n {
      FunctionKeysDistinct(n, m);
      FunctionKeyFound(n, m + 1);
    }
  }

  /**
   * Every key that is not a character and sends something can be told
   * back from its bytes, whatever the modifiers: no two such keys send the
   * same sequence.
   */
  lemma SpecialKeysDecode(key: KeyEvent)
    requires !key.code.Char? && KeyToBytes(key).Some?
    ensures SpecialKeyOf(KeyToBytes(key).value) == Some(key.code)
  {
    var b := KeyToBytes(key).value;
    if key.code.F? {
      var n := key.code.n;
      FunctionKeyFound(n, 1);
      if n <= 4 {
        assert b[1] == 'O' as Byte;
      } else {
        assert |b| == 5;
      }
    }
  }

  // ---------------------------------------------------------------- Normal mode

  /** What a key does in Normal mode. */
  datatype BrowseCommand =
    | QuitApp | SelectUp | SelectDown | FocusOutput
    | RestartSelected | RestartEverything | KillSelected
    | TogglePin | JumpTop | JumpBottom | PageBack | PageForward
    | ShowHelp | NoCommand

  /** The Normal-mode key table; only Ctrl+C looks at a modifier. */
  function BrowseCommandOf(key: KeyEvent): (cmd: BrowseCommand)
    ensures cmd == QuitApp <==> key.code == Char('q') || (key.code == Char('c') && key.ctrl)
    ensures cmd == SelectUp <==> key.code == Up
    ensures cmd == SelectDown <==> key.code == Down
    ensures cmd == FocusOutput <==> key.code == Enter || key.code == Tab
    ensures cmd == TogglePin <==> key.code == Char('g')
    ensures cmd == PageBack <==> key.code == PageUp
    ensures cmd == PageForward <==> key.code == PageDown
    ensures cmd == RestartSelected <==> key.code == Char('r')
    ensures cmd == RestartEverything <==> key.code == Char('A')
    ensures cmd == KillSelected <==> key.code == Char('x')
    ensures cmd == JumpTop <==> key.code == Char('t')
    ensures cmd == JumpBottom <==> key.code == Char('b')
    ensures cmd == ShowHelp <==> key.code == Char('?')
  {
    match key.code
    case Char(c) =>
      if c == 'q' then QuitApp
      else if c == 'c' && key.ctrl then QuitApp
      else if c == 'r' then RestartSelected
      else if c == 'A' then RestartEverything
      else if c == 'x' then KillSelected
      else if c == 'g' then TogglePin
      else if c == 't' then JumpTop
      else if c == 'b' then JumpBottom
      else if c == '?' then ShowHelp
      else NoCommand
    case Up => SelectUp
    case Down => SelectDown
    case Enter => FocusOutput
    case Tab => FocusOutput
    case PageUp => PageBack
    case PageDown => PageForward
    case _ => NoCommand
  }

  /** What a Normal-mode command does to the application state. */
  function BrowseApp(cmd: BrowseCommand, st: AppState, count: nat): AppState
  {
    match cmd
    case QuitApp => st.(shouldQuit := true)
    case SelectUp => st.(selectedIndex := PrevIndex(st.selectedIndex, count))
    case SelectDown => st.(selectedIndex := NextIndex(st.selectedIndex, count))
    case FocusOutput => st.(mode := Focus)
    case ShowHelp => st.(showHelp := !st.showHelp)
    case _ => st
  }

  /** Whether a command scrolls the selected process. */
  predicate Scrolls(cmd: BrowseCommand)
  {
    cmd.TogglePin? || cmd.JumpTop? || cmd.JumpBottom? || cmd.PageBack? || cmd.PageForward?
  }

  /**
   * What a scrolling command does to a process: `g` stops following
   * output when it follows and jumps to the bottom otherwise, `t` and `b`
   * jump, and PageUp and PageDown move a screenful of visible rows.
   */
  function ScrollEffect(cmd: BrowseCommand, p: ManagedProcess, lines: seq<Line>, visibleHeight: nat, viewportWidth: nat): ManagedProcess
  {
    match cmd
    case TogglePin => if p.autoScroll then p.(autoScroll := false) else ScrolledToBottom(p, lines, visibleHeight, viewportWidth)
    case JumpTop => ScrollToTop(p)
    case JumpBottom => ScrolledToBottom(p, lines, visibleHeight, viewportWidth)
    case PageBack => ScrollUp(p, visibleHeight)
    case PageForward => ScrolledDown(p, lines, visibleHeight, visibleHeight, viewportWidth)
    case _ => p
  }

  /**
   * `g` flips whether a process follows output, keeping the offset when it
   * stops following and showing the bottom when it starts; every scrolling
   * command touches only the offset and the following flag.
   */
  lemma PinToggles(cmd: BrowseCommand, p: ManagedProcess, lines: seq<Line>, visibleHeight: nat, viewportWidth: nat)
    ensures var q := ScrollEffect(cmd, p, lines, visibleHeight, viewportWidth);
      q == p.(scrollOffset := q.scrollOffset, autoScroll := q.autoScroll)
    ensures var q := ScrollEffect(TogglePin, p, lines, visibleHeight, viewportWidth);
      && q.autoScroll == !p.autoScroll
      && (p.autoScroll ==> q.scrollOffset == p.scrollOffset)
      && (!p.autoScroll ==> q.scrollOffset == MaxScroll(lines, p.wrapEnabled, visibleHeight, viewportWidth))
  {
  }

  /** What a Normal-mode command does to the processes; restarts take the spawn outcomes as parameters. */
  function BrowseProcesses(cmd: BrowseCommand, t: Table, order: seq<string>, index: nat,
                           visibleHeight: nat, viewportWidth: nat, spawn: Spawn, spawns: seq<Spawn>): Table
    requires |spawns| == |order|
    reads set n | n in t :: t[n].buffer
  {
    if Scrolls(cmd) then ScrollSelected(cmd, t, NameAt(order, index), visibleHeight, viewportWidth)
    else Lifecycle(cmd, t, order, NameAt(order, index), spawn, spawns)
  }

  /** A scrolling command applied to the selected process, when the selection names one. */
  function ScrollSelected(cmd: BrowseCommand, t: Table, sel: Option<string>, visibleHeight: nat, viewportWidth: nat): Table
    reads set n | n in t :: t[n].buffer
  {
    if sel.Some? && sel.value in t then
      t[sel.value := ScrollEffect(cmd, t[sel.value], t[sel.value].buffer.lines, visibleHeight, viewportWidth)]
    else t
  }

  /** What a restart or a kill does to the processes; other commands leave them alone. */
  function Lifecycle(cmd: BrowseCommand, t: Table, order: seq<string>, sel: Option<string>, spawn: Spawn, spawns: seq<Spawn>): Table
    requires |spawns| == |order|
  {
    match cmd
    case RestartSelected => if sel.Some? then StartIn(KillIn(t, sel.value), sel.value, spawn).0 else t
    case RestartEverything => StartEach(KillEach(t, order), order, spawns).0
    case KillSelected => if sel.Some? then KillIn(t, sel.value) else t
    case _ => t
  }

  /** Only restarts, kills and scrolling touch the processes, and only kills and scrolling leave the names' generations alone. */
  lemma BrowseTouchesOnlyItsProcess(cmd: BrowseCommand, t: Table, order: seq<string>, index: nat,
                                    visibleHeight: nat, viewportWidth: nat, spawn: Spawn, spawns: seq<Spawn>)
    requires |spawns| == |order|
    ensures var r := BrowseProcesses(cmd, t, order, index, visibleHeight, viewportWidth, spawn, spawns);
      && r.Keys == t.Keys
      && (cmd.QuitApp? || cmd.SelectUp? || cmd.SelectDown? || cmd.FocusOutput? || cmd.ShowHelp? || cmd.NoCommand? ==> r == t)
      && (cmd != RestartEverything ==> forall n :: n in t && Some(n) != NameAt(order, index) ==> r[n] == t[n])
      && (cmd.KillSelected? || Scrolls(cmd) ==> forall n :: n in t ==> r[n].generation == t[n].generation)
  {
    var sel := NameAt(order, index);
    if Scrolls(cmd) {
      ScrollTouchesOnlySelected(cmd, t, sel, visibleHeight, viewportWidth);
    } else {
      LifecycleTouchesOnlySelected(cmd, t, order, sel, spawn, spawns);
    }
  }

  /** Scrolling changes at most the selected process, and never a generation. */
  lemma ScrollTouchesOnlySelected(cmd: BrowseCommand, t: Table, sel: Option<string>, visibleHeight: nat, viewportWidth: nat)
    ensures var r := ScrollSelected(cmd, t, sel, visibleHeight, viewportWidth);
      && r.Keys == t.Keys
      && (forall n :: n in t && Some(n) != sel ==> r[n] == t[n])
      && (forall n :: n in t ==> r[n].generation == t[n].generation)
  {
    if sel.Some? && sel.value in t {
      var p := t[sel.value];
      PinToggles(cmd, p, p.buffer.lines, visibleHeight, viewportWidth);
    }
  }

  /**
   * A restart or kill keeps the names; only restarting everything touches
   * other processes than the selected one, a kill keeps the generations and
   * other commands change nothing.
   */
  lemma LifecycleTouchesOnlySelected(cmd: BrowseCommand, t: Table, order: seq<string>, sel: Option<string>,
                                     spawn: Spawn, spawns: seq<Spawn>)
    requires |spawns| == |order|
    ensures var r := Lifecycle(cmd, t, order, sel, spawn, spawns);
      && r.Keys == t.Keys
      && (!(cmd.RestartSelected? || cmd.RestartEverything? || cmd.KillSelected?) ==> r == t)
      && (cmd != RestartEverything ==> forall n :: n in t && Some(n) != sel ==> r[n] == t[n])
      && (cmd.KillSelected? ==> forall n :: n in t ==> r[n].generation == t[n].generation)
  {
    if cmd.RestartEverything? {
      KillEachKeepsNames(t, order);
      StartEachKeepsNames(KillEach(t, order), order, spawns);
    }
  }

  lemma {:induction false} KillEachKeepsNames(t: Table, names: seq<string>)
    ensures KillEach(t, names).Keys == t.Keys
    decreases |names|
  {
    if names != [] {
      KillEachKeepsNames(KillIn(t, names[0]), names[1..]);
    }
  }

  lemma {:induction false} StartEachKeepsNames(t: Table, names: seq<string>, spawns: seq<Spawn>)
    requires |spawns| == |names|
    ensures StartEach(t, names, spawns).0.Keys == t.Keys
    decreases |names|
  {
    if names != [] {
      StartEachKeepsNames(StartIn(t, names[0], spawns[0]).0, names[1..], spawns[1..]);
    }
  }

  /** Apply a scrolling command to a known process. */
  method ApplyScroll(pm: ProcessManager, name: string, cmd: BrowseCommand, visibleHeight: nat, viewportWidth: nat)
    requires pm.Valid() && name in pm.processes && Scrolls(cmd)
    modifies pm
    ensures pm.Valid() && pm.Unmoved()
    ensures var p := old(pm.processes)[name];
      pm.processes == old(pm.processes)[name := ScrollEffect(cmd, p, p.buffer.lines, visibleHeight, viewportWidth)]
  {
    var p := pm.processes[name];
    var q: ManagedProcess;
    match cmd {
      case TogglePin =>
        if p.autoScroll {
          q := p.(autoScroll := false);
        } else {
          q := ScrollToBottom(p, visibleHeight, viewportWidth);
        }
      case JumpTop =>
        q := ScrollToTop(p);
      case JumpBottom =>
        q := ScrollToBottom(p, visibleHeight, viewportWidth);
      case PageBack =>
        q := ScrollUp(p, visibleHeight);
      case PageForward =>
        q := ScrollDown(p, visibleHeight, visibleHeight, viewportWidth);
    }
    assert q == ScrollEffect(cmd, p, p.buffer.lines, visibleHeight, viewportWidth);
    pm.SetProcess(name, q);
  }

  /** Whether a command acts on the application state rather than on the processes. */
  predicate OnApp(cmd: BrowseCommand)
  {
    cmd.QuitApp? || cmd.SelectUp? || cmd.SelectDown? || cmd.FocusOutput? || cmd.ShowHelp?
  }

  /** Carry out a command that acts on the application state. */
  method BrowseOnApp(cmd: BrowseCommand, app: App, count: nat)
    requires OnApp(cmd)
    modifies app
    ensures app.State() == BrowseApp(cmd, old(app.State()), count)
  {
    match cmd {
      case QuitApp => app.Quit();
      case SelectUp => app.SelectPrev(count);
      case SelectDown => app.SelectNext(count);
      case FocusOutput => app.EnterFocus();
      case ShowHelp => app.ToggleHelp();
    }
  }

  /** Carry out a restart of every process, or a restart or a kill of the process at `index` in the list when there is one. */
  method BrowseLifecycle(cmd: BrowseCommand, pm: ProcessManager, index: nat, spawn: Spawn, spawns: seq<Spawn>)
    requires pm.Valid() && |spawns| == |pm.order|
    requires cmd.RestartSelected? || cmd.RestartEverything? || cmd.KillSelected?
    modifies pm
    ensures pm.Valid() && pm.Unmoved()
    ensures pm.processes == Lifecycle(cmd, old(pm.processes), old(pm.order), NameAt(old(pm.order), index), spawn, spawns)
  {
    var selected := NameAt(pm.order, index);
    ghost var want := Lifecycle(cmd, pm.processes, pm.order, selected, spawn, spawns);
    if cmd.RestartEverything? {
      var _ := pm.RestartAll(spawns);
    } else if selected.None? {
    } else if cmd.RestartSelected? {
      var _ := pm.RestartProcess(selected.value, spawn);
    } else {
      var _ := pm.KillProcess(selected.value);
    }
    assert pm.processes == want;
  }

  /** Carry out a scrolling command on the process at `index` in the list, when there is one. */
  method BrowseScroll(cmd: BrowseCommand, pm: ProcessManager, index: nat, visibleHeight: nat, viewportWidth: nat)
    requires pm.Valid() && Scrolls(cmd)
    modifies pm
    ensures pm.Valid() && pm.Unmoved()
    ensures pm.processes == ScrollSelected(cmd, old(pm.processes), NameAt(old(pm.order), index), visibleHeight, viewportWidth)
  {
    var selected := NameAt(pm.order, index);
    if selected.Some? && selected.value in pm.processes {
      ApplyScroll(pm, selected.value, cmd, visibleHeight, viewportWidth);
    }
  }

  /** Handle a key in Normal mode. */
  method HandleBrowseKey(key: KeyEvent, app: App, pm: ProcessManager, visibleHeight: nat, viewportWidth: nat,
                         spawn: Spawn, spawns: seq<Spawn>)
    requires pm.Valid() && |spawns| == |pm.order|
    modifies app, pm
    ensures pm.Valid() && pm.Unmoved()
    ensures app.State() == BrowseApp(BrowseCommandOf(key), old(app.State()), |old(pm.order)|)
    ensures pm.processes == BrowseProcesses(BrowseCommandOf(key), old(pm.processes), old(pm.order),
                                            old(app.selectedIndex), visibleHeight, viewportWidth, spawn, spawns)
  {
    RunBrowseCommand(BrowseCommandOf(key), app, pm, visibleHeight, viewportWidth, spawn, spawns);
  }

  /** Carry out a Normal-mode command on the application and the processes. */
  method RunBrowseCommand(cmd: BrowseCommand, app: App, pm: ProcessManager, visibleHeight: nat, viewportWidth: nat,
                          spawn: Spawn, spawns: seq<Spawn>)
    requires pm.Valid() && |spawns| == |pm.order|
    modifies app, pm
    ensures pm.Valid() && pm.Unmoved()
    ensures app.State() == BrowseApp(cmd, old(app.State()), |old(pm.order)|)
    ensures pm.processes == BrowseProcesses(cmd, old(pm.processes), old(pm.order),
                                            old(app.selectedIndex), visibleHeight, viewportWidth, spawn, spawns)
  {
    if OnApp(cmd) {
      BrowseOnApp(cmd, app, |pm.order|);
    } else if Scrolls(cmd) {
      BrowseScroll(cmd, pm, app.selectedIndex, visibleHeight, viewportWidth);
    } else if !cmd.NoCommand? {
      BrowseLifecycle(cmd, pm, app.selectedIndex, spawn, spawns);
    }
  }

  // ---------------------------------------------------------------- Focus mode

  /**
   * Esc always leaves focus; Shift+Tab leaves it unless the global
   * `--no-shift-tab` flag is set, and then it is swallowed: it sends no bytes.
   */
  predicate LeavesFocus(key: KeyEvent, noShiftTab: bool)
  {
    key.code == Esc || (key.code == BackTab && !noShiftTab)
  }

  /** What a Focus-mode key does to the application state. */
  function FocusApp(key: KeyEvent, st: AppState, noShiftTab: bool): (r: AppState)
    ensures r == st || r == st.(mode := Normal)
    ensures key.code == Esc ==> r.mode == Normal
    ensures key.code == BackTab ==> (r.mode == Normal <==> !noShiftTab || st.mode == Normal)
  {
    if LeavesFocus(key, noShiftTab) then st.(mode := Normal) else st
  }

  /**
   * The bytes a Focus-mode key writes and the PTY they go to: none for a
   * key that leaves focus or sends nothing, or when the selection names no
   * process holding a PTY.
   */
  function FocusWrite(key: KeyEvent, noShiftTab: bool, t: Table, order: seq<string>, index: nat): (w: Option<(Pty, seq<Byte>)>)
    ensures w.Some? ==> !LeavesFocus(key, noShiftTab) && KeyToBytes(key) == Some(w.value.1)
    ensures w.Some? ==> exists n :: n in t && NameAt(order, index) == Some(n) && t[n].pty == Some(w.value.0)
  {
    var sel := NameAt(order, index);
    var bytes := KeyToBytes(key);
    if !LeavesFocus(key, noShiftTab) && sel.Some? && bytes.Some? && sel.value in t && t[sel.value].pty.Some? then
      Some((t[sel.value].pty.value, bytes.value))
    else None
  }

  /**
   * Shift+Tab never reaches a process, whether or not `--no-shift-tab` is
   * set, and only that global flag decides whether it leaves focus.
   */
  lemma BackTabIsNeverForwarded(key: KeyEvent, st: AppState, noShiftTab: bool, t: Table, order: seq<string>, index: nat)
    requires key.code == BackTab && st.mode == Focus
    ensures FocusWrite(key, noShiftTab, t, order, index) == None
    ensures FocusApp(key, st, noShiftTab).mode == Normal <==> !noShiftTab
  {
  }

  /** Handle a key in Focus mode; the outcome of the PTY write is a parameter and is ignored, as panex ignores it. */
  method HandleFocusKey(key: KeyEvent, app: App, pm: ProcessManager, ptyWrite: Result<()>)
    returns (written: Option<(Pty, seq<Byte>)>)
    modifies app
    ensures app.State() == FocusApp(key, old(app.State()), app.noShiftTab)
    ensures written == FocusWrite(key, app.noShiftTab, pm.processes, pm.order, app.selectedIndex)
  {
    written := None;
    if key.code == Esc {
      app.ExitFocus();
      return;
    }
    if key.code == BackTab && !app.noShiftTab {
      app.ExitFocus();
      return;
    }
    var selected := NameAt(pm.order, app.selectedIndex);
    if selected.Some? {
      var bytes := KeyToBytes(key);
      if bytes.Some? {
        var outcome;
        outcome, written := pm.WriteToProcess(selected.value, bytes.value, ptyWrite);
      }
    }
  }

  // ---------------------------------------------------------------- dispatch

  /** What a key does to the application state: close the help popup if shown, otherwise by mode. */
  function KeyApp(key: KeyEvent, st: AppState, count: nat, noShiftTab: bool): AppState
  {
    if st.showHelp then st.(showHelp := false)
    else if st.mode == Normal then BrowseApp(BrowseCommandOf(key), st, count)
    else FocusApp(key, st, noShiftTab)
  }

  /** What a key does to the processes: only Normal-mode commands touch them. */
  function KeyProcesses(key: KeyEvent, st: AppState, t: Table, order: seq<string>, visibleHeight: nat, viewportWidth: nat,
                        spawn: Spawn, spawns: seq<Spawn>): Table
    requires |spawns| == |order|
    reads set n | n in t :: t[n].buffer
  {
    if st.showHelp || st.mode == Focus then t
    else BrowseProcesses(BrowseCommandOf(key), t, order, st.selectedIndex, visibleHeight, viewportWidth, spawn, spawns)
  }

  /** What a key writes to a PTY: only a Focus-mode key with the help popup closed writes, and it writes the key's bytes. */
  function KeyWrite(key: KeyEvent, st: AppState, noShiftTab: bool, t: Table, order: seq<string>): (w: Option<(Pty, seq<Byte>)>)
    ensures w.Some? ==> !st.showHelp && st.mode == Focus && KeyToBytes(key) == Some(w.value.1)
  {
    if !st.showHelp && st.mode == Focus then FocusWrite(key, noShiftTab, t, order, st.selectedIndex) else None
  }

  /** No key moves a selection inside the process list out of it. */
  lemma KeysKeepSelectionInList(key: KeyEvent, st: AppState, count: nat, noShiftTab: bool)
    requires st.selectedIndex < count
    ensures KeyApp(key, st, count, noShiftTab).selectedIndex < count
  {
    SelectionStaysInList(st.selectedIndex, count);
  }

  /**
   * Handle a key: close the help popup if shown and do nothing else;
   * otherwise handle it by mode.
   */
  method HandleKey(key: KeyEvent, app: App, pm: ProcessManager, visibleHeight: nat, viewportWidth: nat,
                   spawn: Spawn, spawns: seq<Spawn>, ptyWrite: Result<()>)
    returns (written: Option<(Pty, seq<Byte>)>)
    requires pm.Valid() && |spawns| == |pm.order|
    modifies app, pm
    ensures pm.Valid() && pm.Unmoved()
    ensures app.State() == KeyApp(key, old(app.State()), |old(pm.order)|, app.noShiftTab)
    ensures pm.processes == KeyProcesses(key, old(app.State()), old(pm.processes), old(pm.order),
                                         visibleHeight, viewportWidth, spawn, spawns)
    ensures written == KeyWrite(key, old(app.State()), app.noShiftTab, old(pm.processes), old(pm.order))
  {
    written := None;
    if app.showHelp {
      app.showHelp := false;
      return;
    }
    match app.mode {
      case Normal =>
        HandleBrowseKey(key, app, pm, visibleHeight, viewportWidth, spawn, spawns);
      case Focus =>
        written := HandleFocusKey(key, app, pm, ptyWrite);
    }
  }

  /** A terminal event: a key, a mouse event, a new terminal size, or something the program ignores. */
  datatype Event = KeyInput(key: KeyEvent) | MouseInput(mouse: MouseEvent) | Resized(cols: U16, rows: U16) | OtherEvent

  /** Columns of the terminal left of the output panel: the list and the divider. */
  const PanelLeft: nat := ListWidth + 1

  /**
   * Handle a terminal event. A resize gives the processes the output
   * panel's size: the terminal less the list and the divider, and less the
   * status bar's row.
   */
  method HandleEvent(event: Event, app: App, pm: ProcessManager, visibleHeight: nat, viewportWidth: nat,
                     spawn: Spawn, spawns: seq<Spawn>, ptyWrite: Result<()>)
    returns (written: Option<(Pty, seq<Byte>)>)
    requires pm.Valid() && |spawns| == |pm.order|
    modifies app, pm, pm.Repr
    ensures pm.Valid()
    ensures !event.Resized? ==> pm.Unmoved() && unchanged(pm.Repr)
    ensures event.KeyInput? ==>
      && app.State() == KeyApp(event.key, old(app.State()), |old(pm.order)|, app.noShiftTab)
      && pm.processes == KeyProcesses(event.key, old(app.State()), old(pm.processes), old(pm.order),
                                      visibleHeight, viewportWidth, spawn, spawns)
      && written == KeyWrite(event.key, old(app.State()), app.noShiftTab, old(pm.processes), old(pm.order))
    ensures event.MouseInput? ==>
      && app.State() == MouseApp(event.mouse, old(app.State()), |old(pm.order)|, visibleHeight)
      && pm.processes == MouseProcesses(event.mouse.kind, old(pm.processes), old(pm.order), old(app.selectedIndex),
                                        visibleHeight, viewportWidth)
    ensures event.Resized? ==>
      && app.State() == old(app.State())
      && pm.cols == SatSub(event.cols, PanelLeft) && pm.rows == SatSub(event.rows, 1)
      && pm.processes == old(pm.processes) && pm.order == old(pm.order)
      && forall n :: n in pm.processes ==>
        pm.processes[n].buffer.Snapshot() == old(pm.processes[n].buffer.Snapshot()).(cols := pm.cols, rows := pm.rows)
    ensures event.OtherEvent? ==> app.State() == old(app.State()) && pm.processes == old(pm.processes)
    ensures !event.KeyInput? ==> written == None
  {
    written := None;
    match event {
      case KeyInput(key) =>
        written := HandleKey(key, app, pm, visibleHeight, viewportWidth, spawn, spawns, ptyWrite);
      case MouseInput(mouse) =>
        HandleMouse(mouse, app, pm, visibleHeight, viewportWidth);
      case Resized(cols, rows) =>
        pm.Resize(SatSub(cols, PanelLeft), SatSub(rows, 1));
      case OtherEvent =>
    }
  }
}
