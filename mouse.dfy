/**
 * Mouse input. The wheel scrolls the selected process's output by three
 * rows. A press is located within the layout: the status bar below
 * the visible rows, the process list in the first 20 columns, the divider
 * in column 20 and the output panel from column 21 on.
 */
module Mouse {
  import opened Wrappers
  import opened Emulator
  import opened Supervisor
  import opened Manager
  import opened OutputPanel
  import opened App

  datatype MouseButton = LeftButton | RightButton | MiddleButton

  datatype MouseKind = WheelUp | WheelDown | Press(button: MouseButton) | OtherMouse

  datatype MouseEvent = MouseEvent(kind: MouseKind, column: U16, row: U16)

  /** Rows scrolled per wheel step. */
  const ScrollAmount: nat := 3

  /** Columns taken by the process list; the divider is the next one. */
  const ListWidth: nat := 20

  /**
   * What a press does to the application state: below the visible rows it
   * leaves focus; on the list it selects the row's process when there is
   * one and leaves focus; on the output panel it enters focus; on the
   * divider nothing happens. Any button counts.
   */
  function Click(st: AppState, column: nat, row: nat, count: nat, visibleHeight: nat): (r: AppState)
    ensures r.showHelp == st.showHelp && r.shouldQuit == st.shouldQuit
    ensures r.selectedIndex != st.selectedIndex ==> row < visibleHeight && column < ListWidth && r.selectedIndex == row && row < count
    ensures row >= visibleHeight ==> r == st.(mode := Normal)
    ensures row < visibleHeight && column < ListWidth ==>
      r.mode == Normal && r.selectedIndex == (if row < count then row else st.selectedIndex)
    ensures row < visibleHeight && column == ListWidth ==> r == st
    ensures row < visibleHeight && column > ListWidth ==> r == st.(mode := Focus)
  {
    if row >= visibleHeight then st.(mode := Normal)
    else if column < ListWidth then
      (if row < count then st.(selectedIndex := row) else st).(mode := Normal)
    else if column >= ListWidth + 1 then st.(mode := Focus)
    else st
  }

  /** A click keeps a valid selection valid: the selected index stays below the process count. */
  lemma ClickKeepsSelectionInList(st: AppState, column: nat, row: nat, count: nat, visibleHeight: nat)
    requires st.selectedIndex < count
    ensures Click(st, column, row, count, visibleHeight).selectedIndex < count
  {
  }

  /** What a mouse event does to the application state. */
  function MouseApp(event: MouseEvent, st: AppState, count: nat, visibleHeight: nat): AppState
  {
    if event.kind.Press? then Click(st, event.column as nat, event.row as nat, count, visibleHeight) else st
  }

  /**
   * What a mouse event does to the processes: the wheel scrolls the
   * selected process, when the selection names one, by three rows; nothing
   * else touches them.
   */
  function MouseProcesses(kind: MouseKind, t: Table, order: seq<string>, index: nat, visibleHeight: nat, viewportWidth: nat): (r: Table)
    reads set n | n in t :: t[n].buffer
    ensures r.Keys == t.Keys
    ensures forall n :: n in t && Some(n) != NameAt(order, index) ==> r[n] == t[n]
    ensures !(kind.WheelUp? || kind.WheelDown?) ==> r == t
  {
    var sel := NameAt(order, index);
    if sel.Some? && sel.value in t then
      var p := t[sel.value];
      match kind
      case WheelUp => t[sel.value := ScrollUp(p, ScrollAmount)]
      case WheelDown => t[sel.value := ScrolledDown(p, p.buffer.lines, ScrollAmount, visibleHeight, viewportWidth)]
      case _ => t
    else t
  }

  /** The wheel moves the selected process by exactly three rows, within the range the panel can show. */
  lemma WheelMovesThreeRows(p: ManagedProcess, lines: seq<Line>, visibleHeight: nat, viewportWidth: nat)
    ensures ScrollUp(p, ScrollAmount).scrollOffset == SatSub(p.scrollOffset, 3)
    ensures var max := MaxScroll(lines, p.wrapEnabled, visibleHeight, viewportWidth);
      ScrolledDown(p, lines, ScrollAmount, visibleHeight, viewportWidth).scrollOffset == Min(p.scrollOffset + 3, max)
  {
  }

  /** Handle a mouse event against the application and the processes. */
  method HandleMouse(event: MouseEvent, app: App, pm: ProcessManager, visibleHeight: nat, viewportWidth: nat)
    requires pm.Valid()
    modifies app, pm
    ensures pm.Valid() && pm.Unmoved()
    ensures app.State() == MouseApp(event, old(app.State()), |old(pm.order)|, visibleHeight)
    ensures pm.processes ==
      MouseProcesses(event.kind, old(pm.processes), old(pm.order), old(app.selectedIndex), visibleHeight, viewportWidth)
  {
    var selected := NameAt(pm.order, app.selectedIndex);
    match event.kind {
      case WheelUp =>
        if selected.Some? && selected.value in pm.processes {
          var p := pm.processes[selected.value];
          pm.SetProcess(selected.value, ScrollUp(p, ScrollAmount));
        }
      case WheelDown =>
        if selected.Some? && selected.value in pm.processes {
          var p := pm.processes[selected.value];
          var q := ScrollDown(p, ScrollAmount, visibleHeight, viewportWidth);
          pm.SetProcess(selected.value, q);
        }
      case Press(_) =>
        var isStatusBar := event.row as nat >= visibleHeight;
        if isStatusBar {
          app.ExitFocus();
        } else if event.column as nat < ListWidth {
          var index := event.row as nat;
          if index < |pm.order| {
            app.selectedIndex := index;
          }
          app.ExitFocus();
        } else if event.column as nat >= ListWidth + 1 {
          app.EnterFocus();
        }
      case OtherMouse =>
    }
  }
}
