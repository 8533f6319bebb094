/**
 * The application state the input handlers drive: which process is
 * selected, whether keys go to the list (Normal) or to the selected
 * process (Focus), whether the help popup is shown and whether the
 * program should quit.
 */
module App {
  import opened Arith

  /** Where keys go: to the process list, or to the selected process's PTY. */
  datatype InputMode = Normal | Focus

  /** The fields of the application state, as a value. */
  datatype AppState = AppState(selectedIndex: nat, mode: InputMode, showHelp: bool, shouldQuit: bool)

  /** The next index in a list of `count` entries, wrapping to the first; no list, no move. */
  function NextIndex(i: nat, count: nat): nat
  {
    if count > 0 then (i + 1) % count else i
  }

  /** The previous index in a list of `count` entries, wrapping to the last; no list, no move. */
  function PrevIndex(i: nat, count: nat): nat
  {
    if count > 0 then (i + count - 1) % count else i
  }

  /** Moving in a non-empty list always lands on an entry; in an empty list nothing moves. */
  lemma SelectionStaysInList(i: nat, count: nat)
    ensures count > 0 ==> NextIndex(i, count) < count && PrevIndex(i, count) < count
    ensures count == 0 ==> NextIndex(i, count) == i && PrevIndex(i, count) == i
  {
  }

  /** Within the list, next and previous undo each other, and next moves one down except from the last entry to the first. */
  lemma NextAndPrevAreInverse(i: nat, count: nat)
    requires i < count
    ensures PrevIndex(NextIndex(i, count), count) == i
    ensures NextIndex(PrevIndex(i, count), count) == i
    ensures NextIndex(i, count) == if i + 1 == count then 0 else i + 1
    ensures PrevIndex(i, count) == if i == 0 then count - 1 else i - 1
  {
    if i + 1 < count {
      DivModUnique(i + 1, count, 0, i + 1);
    } else {
      DivModUnique(i + 1, count, 1, 0);
    }
    if i > 0 {
      DivModUnique(i + count - 1, count, 1, i - 1);
    } else {
      DivModUnique(i + count - 1, count, 0, count - 1);
    }
    var n := NextIndex(i, count);
    if n > 0 {
      DivModUnique(n + count - 1, count, 1, n - 1);
    } else {
      DivModUnique(n + count - 1, count, 0, count - 1);
    }
    var p := PrevIndex(i, count);
    if p + 1 < count {
      DivModUnique(p + 1, count, 0, p + 1);
    } else {
      DivModUnique(p + 1, count, 1, 0);
    }
  }

  /** `k` presses of Down from index `i`. */
  function NextTimes(i: nat, count: nat, k: nat): nat
  {
    if k == 0 then i else NextIndex(NextTimes(i, count, k - 1), count)
  }

  /** `k` presses of Down move `k` entries round the list, so `count` presses come back. */
  lemma {:induction false} NextTimesCycles(i: nat, count: nat, k: nat)
    requires i < count
    ensures NextTimes(i, count, k) == (i + k) % count
    ensures NextTimes(i, count, count) == i
  {
    NextTimesIsModular(i, count, k);
    NextTimesIsModular(i, count, count);
    DivModUnique(i + count, count, 1, i);
  }

  lemma {:induction false} NextTimesIsModular(i: nat, count: nat, k: nat)
    requires i < count
    ensures NextTimes(i, count, k) == (i + k) % count
  {
    if k == 0 {
      DivModUnique(i, count, 0, i);
    } else {
      var j := (i + k - 1) % count;
      assert NextTimes(i, count, k - 1) == j by {
        NextTimesIsModular(i, count, k - 1);
      }
      assert (j + 1) % count == (i + k) % count by {
        ModSucc(i + k - 1, count);
      }
    }
  }

  class App {
    var selectedIndex: nat
    var mode: InputMode
    var showHelp: bool
    var shouldQuit: bool
    const noShiftTab: bool

    /** The state as a value. */
    function State(): AppState
      reads this
    {
      AppState(selectedIndex, mode, showHelp, shouldQuit)
    }

    /** The first process selected, Normal mode, no help, not quitting. */
    constructor (noShiftTab: bool)
      ensures selectedIndex == 0 && mode == Normal && !showHelp && !shouldQuit
      ensures this.noShiftTab == noShiftTab
    {
      selectedIndex := 0;
      mode := Normal;
      showHelp := false;
      shouldQuit := false;
      this.noShiftTab := noShiftTab;
    }

    /** Select the next process in a list of `count`, wrapping round; nothing else changes. */
    method SelectNext(count: nat)
      modifies this
      ensures selectedIndex == NextIndex(old(selectedIndex), count)
      ensures mode == old(mode) && showHelp == old(showHelp) && shouldQuit == old(shouldQuit)
    {
      if count > 0 {
        selectedIndex := (selectedIndex + 1) % count;
      }
    }

    /** Select the previous process in a list of `count`, wrapping round; nothing else changes. */
    method SelectPrev(count: nat)
      modifies this
      ensures selectedIndex == PrevIndex(old(selectedIndex), count)
      ensures mode == old(mode) && showHelp == old(showHelp) && shouldQuit == old(shouldQuit)
    {
      if count > 0 {
        selectedIndex := (selectedIndex + count - 1) % count;
      }
    }

    /** Send keys to the selected process from now on; nothing else changes. */
    method EnterFocus()
      modifies this
      ensures mode == Focus
      ensures selectedIndex == old(selectedIndex) && showHelp == old(showHelp) && shouldQuit == old(shouldQuit)
    {
      mode := Focus;
    }

    /** Send keys to the process list from now on; nothing else changes. */
    method ExitFocus()
      modifies this
      ensures mode == Normal
      ensures selectedIndex == old(selectedIndex) && showHelp == old(showHelp) && shouldQuit == old(shouldQuit)
    {
      mode := Normal;
    }

    /** Show the help popup if hidden, hide it if shown; twice in a row restores it. */
    method ToggleHelp()
      modifies this
      ensures showHelp == !old(showHelp)
      ensures selectedIndex == old(selectedIndex) && mode == old(mode) && shouldQuit == old(shouldQuit)
    {
      showHelp := !showHelp;
    }

    /** Ask the program to quit; asking again changes nothing. */
    method Quit()
      modifies this
      ensures shouldQuit
      ensures selectedIndex == old(selectedIndex) && mode == old(mode) && showHelp == old(showHelp)
    {
      shouldQuit := true;
    }
  }
}
