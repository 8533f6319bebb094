/**
 * The output panel: which rows of a process's buffer the viewport shows,
 * and the scroll operations on a process. In wrap mode every non-empty
 * line is cut into chunks of the viewport width and an empty line is one
 * empty row; otherwise every line is truncated at the width and only the
 * content lines (trailing empty lines cut off, at least one) can be
 * scrolled through.
 *
 * A scroll operation takes the process record and returns the updated
 * one, which the caller stores back under the process's name.
 */
module OutputPanel {
  import opened Wrappers
  import opened Arith
  import opened Styles
  import opened Emulator
  import opened Terminal
  import opened Supervisor

  // ---------------------------------------------------------------- wrapping

  /** The cells of a sequence of rows, one row after the other. */
  function Concat(rows: seq<Line>): Line
  {
    if rows == [] then [] else Concat(rows[..|rows| - 1]) + rows[|rows| - 1]
  }

  /** A line cut into consecutive chunks of `width` cells; only the last may be shorter. */
  function Chunks(line: Line, width: nat): seq<Line>
    requires width > 0
    decreases |line|
  {
    if line == [] then []
    else if |line| <= width then [line]
    else [line[..width]] + Chunks(line[width..], width)
  }

  /** The display rows of one line in wrap mode: one empty row for an empty line, its chunks otherwise. */
  function WrapLine(line: Line, width: nat): seq<Line>
    requires width > 0
  {
    if line == [] then [[]] else Chunks(line, width)
  }

  /** The display rows of all lines in wrap mode. */
  function WrapLines(lines: seq<Line>, width: nat): seq<Line>
    requires width > 0
  {
    if lines == [] then [] else WrapLines(lines[..|lines| - 1], width) + WrapLine(lines[|lines| - 1], width)
  }

  /**
   * The chunks of a non-empty line give it back when put together, none is
   * empty or wider than the width, and there are as many as the line
   * needs display rows.
   */
  lemma ChunksPartitionLine(line: Line, width: nat)
    requires width > 0
    ensures Concat(Chunks(line, width)) == line
    ensures forall k :: 0 <= k < |Chunks(line, width)| ==> 0 < |Chunks(line, width)[k]| <= width
    ensures line != [] ==> |Chunks(line, width)| == LineRows(line, width)
  {
    ChunksConcat(line, width);
    ChunksWidth(line, width);
    ChunksCount(line, width);
  }

  lemma {:induction false} ChunksConcat(line: Line, width: nat)
    requires width > 0
    ensures Concat(Chunks(line, width)) == line
    decreases |line|
  {
    if line == [] {
    } else if |line| <= width {
      assert Concat([line]) == Concat([]) + line;
    } else {
      var rest := line[width..];
      ChunksConcat(rest, width);
      ConcatCons(line[..width], Chunks(rest, width));
      assert line[..width] + rest == line;
    }
  }

  lemma {:induction false} ChunksWidth(line: Line, width: nat)
    requires width > 0
    ensures forall k :: 0 <= k < |Chunks(line, width)| ==> 0 < |Chunks(line, width)[k]| <= width
    decreases |line|
  {
    if line != [] && |line| > width {
      var rest := line[width..];
      ChunksWidth(rest, width);
      var cs := Chunks(line, width);
      assert cs == [line[..width]] + Chunks(rest, width);
      forall k | 0 <= k < |cs|
        ensures 0 < |cs[k]| <= width
      {
        if k > 0 {
          assert cs[k] == Chunks(rest, width)[k - 1];
        }
      }
    }
  }

  lemma {:induction false} ChunksCount(line: Line, width: nat)
    requires width > 0
    ensures line != [] ==> |Chunks(line, width)| == LineRows(line, width)
    decreases |line|
  {
    if line != [] && |line| <= width {
      DivModUnique(|line| + width - 1, width, 1, |line| - 1);
    } else if line != [] {
      var rest := line[width..];
      ChunksCount(rest, width);
      var a := |rest| + width - 1;
      DivModUnique(a + width, width, a / width + 1, a % width);
    }
  }

  /** Concatenation distributes over a leading row. */
  lemma {:induction false} ConcatCons(row: Line, rows: seq<Line>)
    ensures Concat([row] + rows) == row + Concat(rows)
    decreases |rows|
  {
    if rows == [] {
      assert [row] + rows == [row];
      assert Concat([row]) == Concat([]) + row;
    } else {
      var init, last := rows[..|rows| - 1], rows[|rows| - 1];
      var all := [row] + rows;
      assert all[..|all| - 1] == [row] + init && all[|all| - 1] == last;
      assert Concat(all) == Concat([row] + init) + last;
      ConcatCons(row, init);
      assert Concat(rows) == Concat(init) + last;
      assert (row + Concat(init)) + last == row + (Concat(init) + last);
    }
  }

  /** Wrap mode shows exactly as many rows as the wrapped row count says. */
  lemma {:induction false} WrapLinesCount(lines: seq<Line>, width: nat)
    requires width > 0
    ensures |WrapLines(lines, width)| == WrappedRowCount(lines, width)
    decreases |lines|
  {
    if lines != [] {
      var last := lines[|lines| - 1];
      WrapLinesCount(lines[..|lines| - 1], width);
      ChunksPartitionLine(last, width);
    }
  }

  /** No wrapped row is wider than the viewport. */
  lemma {:induction false} WrapLinesFit(lines: seq<Line>, width: nat)
    requires width > 0
    ensures forall k :: 0 <= k < |WrapLines(lines, width)| ==> |WrapLines(lines, width)[k]| <= width
    decreases |lines|
  {
    if lines != [] {
      var init := lines[..|lines| - 1];
      var last := lines[|lines| - 1];
      WrapLinesFit(init, width);
      ChunksPartitionLine(last, width);
      var prefix := WrapLines(init, width);
      var tail := WrapLine(last, width);
      assert WrapLines(lines, width) == prefix + tail;
      forall k | 0 <= k < |prefix + tail|
        ensures |(prefix + tail)[k]| <= width
      {
        if k >= |prefix| {
          assert (prefix + tail)[k] == tail[k - |prefix|];
        }
      }
    }
  }

  /** Cut a line into its chunks, front to back; an empty line has none. */
  method ChunksOf(line: Line, width: nat) returns (chunks: seq<Line>)
    requires width > 0
    ensures chunks == Chunks(line, width)
  {
    chunks := [];
    var k := 0;
    while k < |line|
      invariant 0 <= k <= |line|
      invariant chunks + Chunks(line[k..], width) == Chunks(line, width)
      decreases |line| - k
    {
      var rest := line[k..];
      if |rest| <= width {
        assert line[|line|..] == [];
        chunks := chunks + [rest];
        k := |line|;
      } else {
        assert rest[width..] == line[k + width..];
        assert rest[..width] == line[k..k + width];
        chunks := chunks + [line[k..k + width]];
        k := k + width;
      }
    }
    assert line[k..] == [];
  }

  // ---------------------------------------------------------------- the window

  /**
   * The rows shown of `total` display rows at a scroll offset: from the
   * offset, but no further than the last row, for `height` rows or up to
   * the end.
   */
  function Window(offset: nat, total: nat, height: nat): (w: (nat, nat))
  {
    var start := Min(offset, SatSub(total, 1));
    (start, Min(start + height, total))
  }

  /**
   * The window never runs past the rows there are or the viewport's
   * height; it starts at the offset when that row exists and it is full
   * whenever enough rows follow its start.
   */
  lemma WindowBounds(offset: nat, total: nat, height: nat)
    ensures var (start, end) := Window(offset, total, height);
      && start <= end <= total
      && end - start <= height
      && (offset < total ==> start == offset)
      && (total > 0 ==> start < total)
      && (start + height <= total ==> end - start == height)
  {
  }

  /** A line truncated at the viewport width. */
  function Truncate(line: Line, width: nat): (r: Line)
    ensures |r| <= width && r <= line
    ensures |line| <= width ==> r == line
  {
    line[..Min(|line|, width)]
  }

  /** The text shown when no process is selected. */
  const Placeholder: Line := Styled("No process selected")

  /** A string in the default style. */
  function Styled(s: string): (r: Line)
    ensures |r| == |s| && forall i :: 0 <= i < |s| ==> r[i] == Cell(s[i], DefaultStyle)
  {
    if s == [] then [] else [Cell(s[0], DefaultStyle)] + Styled(s[1..])
  }

  /**
   * The rows the panel shows of a buffer's lines at a scroll offset, in a
   * viewport of `width` by `height` cells: a window of the wrapped rows in
   * wrap mode with a positive width, otherwise a window of the content
   * lines, each truncated at the width.
   */
  function Rendered(lines: seq<Line>, offset: nat, wrapEnabled: bool, width: nat, height: nat): seq<Line>
  {
    if wrapEnabled && width > 0 then
      var wrapped := WrapLines(lines, width);
      var (start, end) := Window(offset, |wrapped|, height);
      wrapped[start..end]
    else
      var (start, end) := Window(offset, ContentLineCount(lines), height);
      var from := Min(start, |lines|);
      seq(Min(end, |lines|) - from, k requires 0 <= k < Min(end, |lines|) - from => Truncate(lines[from + k], width))
  }

  /** Whatever is shown fits the viewport: no more rows than its height, no row wider than its width. */
  lemma RenderedFits(lines: seq<Line>, offset: nat, wrapEnabled: bool, width: nat, height: nat)
    ensures var rows := Rendered(lines, offset, wrapEnabled, width, height);
      && |rows| <= height
      && forall k :: 0 <= k < |rows| ==> |rows[k]| <= width
  {
    if wrapEnabled && width > 0 {
      var wrapped := WrapLines(lines, width);
      WrapLinesFit(lines, width);
      var start := Window(offset, |wrapped|, height).0;
      var end := Window(offset, |wrapped|, height).1;
      var rows := Rendered(lines, offset, wrapEnabled, width, height);
      assert rows == wrapped[start..end];
      forall k | 0 <= k < |rows|
        ensures |rows[k]| <= width
      {
        assert rows[k] == wrapped[start + k];
      }
    } else {
      var start := Window(offset, ContentLineCount(lines), height).0;
      var from := Min(start, |lines|);
      var rows := Rendered(lines, offset, wrapEnabled, width, height);
      forall k | 0 <= k < |rows|
        ensures |rows[k]| <= width
      {
        assert rows[k] == Truncate(lines[from + k], width);
      }
    }
  }

  /**
   * With wrapping off, the panel shows content lines from the offset (when
   * that line exists), each truncated at the width, and never a line
   * beyond the content.
   */
  lemma RenderedTruncatesContent(lines: seq<Line>, offset: nat, width: nat, height: nat)
    requires |lines| >= 1
    ensures var rows := Rendered(lines, offset, false, width, height);
      var count := ContentLineCount(lines);
      var start := Min(offset, count - 1);
      && start + |rows| <= count
      && (forall k :: 0 <= k < |rows| ==> rows[k] == Truncate(lines[start + k], width))
      && (offset < count ==> start == offset)
      && (start + height <= count ==> |rows| == height)
  {
    ContentLineCountBounded(lines);
  }

  /** The content line count is between one and the number of lines, when there is a line. */
  lemma ContentLineCountBounded(lines: seq<Line>)
    requires |lines| >= 1
    ensures 1 <= ContentLineCount(lines) <= |lines|
  {
  }

  /**
   * Render the panel: the placeholder when no process is selected,
   * otherwise the rows of its buffer the window shows.
   */
  method Render(process: Option<ManagedProcess>, width: U16, height: U16) returns (rows: seq<Line>)
    requires process.Some? ==> process.value.buffer.Valid()
    ensures process.None? ==> rows == [Placeholder]
    ensures process.Some? ==>
      var p := process.value;
      rows == Rendered(p.buffer.lines, p.scrollOffset, p.wrapEnabled, width as nat, height as nat)
  {
    if process.None? {
      return [Placeholder];
    }
    var p := process.value;
    if p.wrapEnabled && width > 0 {
      rows := RenderWrapped(p.buffer.lines, p.scrollOffset, width as nat, height as nat);
    } else {
      var total := p.buffer.ContentLineCount();
      rows := RenderUnwrapped(p.buffer.lines, total, p.scrollOffset, width as nat, height as nat);
    }
  }

  /** Wrap mode: the window of the wrapped rows. */
  method RenderWrapped(lines: seq<Line>, offset: nat, width: nat, height: nat) returns (rows: seq<Line>)
    requires width > 0
    ensures rows == Rendered(lines, offset, true, width, height)
  {
    var wrapped := WrapAll(lines, width);
    var total := |wrapped|;
    var start := Min(offset, SatSub(total, 1));
    var end := Min(start + height, total);
    rows := wrapped[start..end];
  }

  /** No wrapping: the window of the content lines, each truncated at the width. */
  method RenderUnwrapped(lines: seq<Line>, total: nat, offset: nat, width: nat, height: nat) returns (rows: seq<Line>)
    requires total == ContentLineCount(lines) <= |lines|
    ensures rows == Rendered(lines, offset, false, width, height)
  {
    var start := Min(offset, SatSub(total, 1));
    var end := Min(start + height, total);
    rows := TruncateEach(lines, start, end, width);
    ghost var shown := Rendered(lines, offset, false, width, height);
    assert |shown| == |rows|;
    forall k | 0 <= k < |rows|
      ensures rows[k] == shown[k]
    {
    }
  }

  /** The wrapped rows of all lines, line by line. */
  method WrapAll(lines: seq<Line>, width: nat) returns (wrapped: seq<Line>)
    requires width > 0
    ensures wrapped == WrapLines(lines, width)
  {
    wrapped := [];
    for i := 0 to |lines|
      invariant wrapped == WrapLines(lines[..i], width)
    {
      assert lines[..i + 1][..i] == lines[..i];
      if lines[i] == [] {
        wrapped := wrapped + [[]];
      } else {
        var chunks := ChunksOf(lines[i], width);
        wrapped := wrapped + chunks;
      }
    }
    assert lines[..|lines|] == lines;
  }

  /** The lines from `start` to `end`, each truncated at the width. */
  method TruncateEach(lines: seq<Line>, start: nat, end: nat, width: nat) returns (rows: seq<Line>)
    requires start <= end <= |lines|
    ensures |rows| == end - start
    ensures forall k :: 0 <= k < |rows| ==> rows[k] == Truncate(lines[start + k], width)
  {
    rows := [];
    for i := start to end
      invariant |rows| == i - start
      invariant forall k :: 0 <= k < |rows| ==> rows[k] == Truncate(lines[start + k], width)
    {
      rows := rows + [lines[i][..Min(|lines[i]|, width)]];
    }
  }

  // ---------------------------------------------------------------- scrolling

  /**
   * The display rows a process can be scrolled through: the wrapped rows
   * of all its lines in wrap mode with a positive width, otherwise its
   * content lines.
   */
  function DisplayLineCount(lines: seq<Line>, wrapEnabled: bool, width: nat): nat
  {
    if wrapEnabled && width > 0 then WrappedRowCount(lines, width) else ContentLineCount(lines)
  }

  /** The display row count is the number of rows the renderer windows over. */
  lemma DisplayLineCountIsRenderedTotal(lines: seq<Line>, wrapEnabled: bool, width: nat)
    ensures wrapEnabled && width > 0 ==> DisplayLineCount(lines, wrapEnabled, width) == |WrapLines(lines, width)|
    ensures !(wrapEnabled && width > 0) ==> DisplayLineCount(lines, wrapEnabled, width) == ContentLineCount(lines)
  {
    if wrapEnabled && width > 0 {
      WrapLinesCount(lines, width);
    }
  }

  /** The largest offset that still fills the viewport: total minus visible rows, or 0. */
  function MaxScroll(lines: seq<Line>, wrapEnabled: bool, visibleHeight: nat, viewportWidth: nat): nat
  {
    SatSub(DisplayLineCount(lines, wrapEnabled, viewportWidth), visibleHeight)
  }

  /** Scroll up by `amount` rows, stopping at the top; the process stops following output. */
  function ScrollUp(p: ManagedProcess, amount: nat): (q: ManagedProcess)
    ensures q == p.(scrollOffset := q.scrollOffset, autoScroll := false)
    ensures q.scrollOffset <= p.scrollOffset
    ensures amount <= p.scrollOffset ==> q.scrollOffset + amount == p.scrollOffset
    ensures amount > p.scrollOffset ==> q.scrollOffset == 0
  {
    p.(scrollOffset := SatSub(p.scrollOffset, amount), autoScroll := false)
  }

  /**
   * Scrolled down by `amount` rows, stopping at the largest offset that
   * fills the viewport; reaching that offset makes the process follow
   * output again, and scrolling down never stops it following.
   */
  function ScrolledDown(p: ManagedProcess, lines: seq<Line>, amount: nat, visibleHeight: nat, viewportWidth: nat): (q: ManagedProcess)
    ensures var max := MaxScroll(lines, p.wrapEnabled, visibleHeight, viewportWidth);
      && q == p.(scrollOffset := q.scrollOffset, autoScroll := q.autoScroll)
      && q.scrollOffset <= max
      && (p.scrollOffset + amount <= max ==> q.scrollOffset == p.scrollOffset + amount)
      && (p.scrollOffset + amount >= max ==> q.scrollOffset == max)
      && (q.autoScroll <==> p.autoScroll || q.scrollOffset == max)
  {
    var max := MaxScroll(lines, p.wrapEnabled, visibleHeight, viewportWidth);
    var offset := Min(p.scrollOffset + amount, max);
    p.(scrollOffset := offset, autoScroll := p.autoScroll || offset >= max)
  }

  /** Scroll a process down, counting the display rows of its buffer. */
  method ScrollDown(p: ManagedProcess, amount: nat, visibleHeight: nat, viewportWidth: nat) returns (q: ManagedProcess)
    requires p.buffer.Valid()
    ensures q == ScrolledDown(p, p.buffer.lines, amount, visibleHeight, viewportWidth)
  {
    var total := DisplayLines(p, viewportWidth);
    var maxScroll := SatSub(total, visibleHeight);
    q := p.(scrollOffset := Min(p.scrollOffset + amount, maxScroll));
    if q.scrollOffset >= maxScroll {
      q := q.(autoScroll := true);
    }
  }

  /** Jump to the top; the process stops following output. */
  function ScrollToTop(p: ManagedProcess): (q: ManagedProcess)
    ensures q == p.(scrollOffset := 0, autoScroll := false)
    ensures ScrollUp(p, p.scrollOffset) == q
  {
    p.(scrollOffset := 0, autoScroll := false)
  }

  /**
   * Jumped to the largest offset that fills the viewport, following output
   * again; the result depends only on the buffer, so jumping again changes
   * nothing.
   */
  function ScrolledToBottom(p: ManagedProcess, lines: seq<Line>, visibleHeight: nat, viewportWidth: nat): (q: ManagedProcess)
    ensures q == p.(scrollOffset := q.scrollOffset, autoScroll := true)
    ensures q.scrollOffset == MaxScroll(lines, p.wrapEnabled, visibleHeight, viewportWidth)
    ensures q.scrollOffset == ScrolledDown(p, lines, q.scrollOffset, visibleHeight, viewportWidth).scrollOffset
  {
    p.(scrollOffset := SatSub(DisplayLineCount(lines, p.wrapEnabled, viewportWidth), visibleHeight), autoScroll := true)
  }

  /** Jump a process to the bottom, counting the display rows of its buffer. */
  method ScrollToBottom(p: ManagedProcess, visibleHeight: nat, viewportWidth: nat) returns (q: ManagedProcess)
    requires p.buffer.Valid()
    ensures q == ScrolledToBottom(p, p.buffer.lines, visibleHeight, viewportWidth)
  {
    var total := DisplayLines(p, viewportWidth);
    q := p.(scrollOffset := SatSub(total, visibleHeight), autoScroll := true);
  }

  /** Jumping to the top or the bottom twice is jumping once. */
  lemma JumpsAreIdempotent(p: ManagedProcess, lines: seq<Line>, visibleHeight: nat, viewportWidth: nat)
    ensures ScrollToTop(ScrollToTop(p)) == ScrollToTop(p)
    ensures var q := ScrolledToBottom(p, lines, visibleHeight, viewportWidth);
      ScrolledToBottom(q, lines, visibleHeight, viewportWidth) == q
  {
  }

  /** The display row count of a process's buffer. */
  method DisplayLines(p: ManagedProcess, viewportWidth: nat) returns (count: nat)
    requires p.buffer.Valid()
    ensures count == DisplayLineCount(p.buffer.lines, p.wrapEnabled, viewportWidth)
    ensures count >= 1
  {
    if p.wrapEnabled && viewportWidth > 0 {
      WrappedRowCountPositive(p.buffer.lines, viewportWidth);
      count := WrappedRowCount(p.buffer.lines, viewportWidth);
    } else {
      count := p.buffer.ContentLineCount();
    }
  }

  /** Every line needs at least one row, so a non-empty buffer needs at least one. */
  lemma {:induction false} WrappedRowCountPositive(lines: seq<Line>, width: nat)
    requires width > 0
    ensures WrappedRowCount(lines, width) >= |lines|
    decreases |lines|
  {
    if lines != [] {
      WrappedRowCountPositive(lines[..|lines| - 1], width);
    }
  }

  /**
   * At the largest scroll offset the window ends at the last display row
   * and shows as many rows as fit: the panel shows the bottom.
   */
  lemma BottomShowsLastRows(total: nat, height: nat)
    requires height > 0
    ensures var (start, end) := Window(SatSub(total, height), total, height);
      end == total && end - start == Min(total, height)
  {
  }

  /** Scrolling up and then down by the same amount returns to the offset, when that offset was in range. */
  lemma ScrollUpThenDown(p: ManagedProcess, lines: seq<Line>, amount: nat, visibleHeight: nat, viewportWidth: nat)
    requires amount <= p.scrollOffset <= MaxScroll(lines, p.wrapEnabled, visibleHeight, viewportWidth)
    ensures ScrolledDown(ScrollUp(p, amount), lines, amount, visibleHeight, viewportWidth).scrollOffset == p.scrollOffset
  {
  }

  /** Wrapped row counts only grow as lines are added. */
  lemma {:induction false} WrappedRowCountPrefix(lines: seq<Line>, n: nat, width: nat)
    requires width > 0 && n <= |lines|
    ensures WrappedRowCount(lines[..n], width) <= WrappedRowCount(lines, width)
    decreases |lines|
  {
    if n < |lines| {
      var init := lines[..|lines| - 1];
      assert init[..n] == lines[..n];
      WrappedRowCountPrefix(init, n, width);
    } else {
      assert lines[..n] == lines;
    }
  }

  /**
   * The offset the supervisor scrolls a followed process to is one the
   * panel can show: it never exceeds the largest offset scrolling down
   * reaches. (In wrap mode the supervisor counts only the content lines,
   * the panel all lines, so the two may differ by trailing empty rows.)
   */
  lemma AutoScrollWithinRange(lines: seq<Line>, wrapEnabled: bool, width: nat, height: nat)
    requires |lines| >= 1
    ensures AutoScrollOffset(lines, wrapEnabled, width, height) <= MaxScroll(lines, wrapEnabled, height, width)
  {
    if wrapEnabled && width > 0 {
      var count := ContentLineCount(lines);
      ContentLineCountBounded(lines);
      WrappedRowCountPrefix(lines, count, width);
      WrappedRowCountPositive(lines, width);
    }
  }
}
