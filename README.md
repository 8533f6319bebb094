# panex-rs, modelled in Dafny

panex runs several shell commands side by side in one terminal. Each command
gets a pseudo-terminal (PTY). Its output goes through a small terminal
emulator into a scrollback buffer. A process list on the left shows each
command's status. An output panel on the right shows the selected buffer. The
keyboard and the mouse either drive the list (Normal mode) or are forwarded
to the selected process (Focus mode).

This project models that core and proves properties of it:

- **Terminal buffer** (`process/buffer.rs`)
  - `Emulator` is a pure specification: a `Screen` value and one function per
    emulator operation. `Step` applies one parser callback and `Run` folds a
    batch of them.
  - `EmulatorProps` proves the emulator's promises:
    - the 10,000-line scrollback cap and the 2,000-column cursor cap
    - overwrite semantics
    - the erase modes
    - SGR styling
    - the replies to device-attribute and cursor-position queries
  - `Terminal.TerminalBuffer` is the imperative class. Its methods mutate the
    `VecDeque` of lines (a `seq` field) step by step. Each method is proved
    to leave the state the specification function gives.
- **Configuration** (`config.rs`)
  - status icons and colours
  - splitting and trimming the `--names` list
  - the `!` / `:w` name suffixes
  - `from_args`
- **Process manager** (`process/manager.rs`)
  - `Supervisor` holds the per-process record as a value. It defines the
    table-level transitions and proves what they promise:
    - generations make stale reader events harmless
    - "running exactly when a PTY is held" is preserved
    - start-up is fail-fast
    - shutdown stops everything
    - auto-scroll shows the bottom
  - `Manager.ProcessManager` is the class. It holds the process map and the
    insertion order, and each process owns a `TerminalBuffer`.
- **Output panel** (`ui/output_panel.rs`)
  - wrapping into chunks
  - the visible window
  - truncation
  - the display row count
  - the four scrolling operations
- **Application state** (`ui/app.rs`): the selection, the mode, help and quit.
- **Input** (`input/handler.rs`, `input/mouse.rs`)
  - key-to-byte encoding
  - the Normal-mode key table
  - Focus-mode forwarding
  - help-popup handling
  - resize events
  - wheel scrolling
  - which screen region a click lands in

Spawning a process, writing to a PTY and signalling it are effects outside
the model:

- A spawn's outcome (`Spawned(pty)` or `SpawnFailed(reason)`) is a parameter.
- A PTY is an opaque token.
- A write to a PTY, or a termination request, is returned to the caller as a
  value; nothing is performed.
- The bytes a process prints arrive already split into the escape-sequence
  parser's callbacks (`Emulator.Action`).

Two source files are at different revisions:

- `input/handler.rs` calls the scrolling functions of `ui/output_panel.rs`
  without the viewport width they take. It also names the list mode
  `Browse`, where `ui/app.rs` names it `Normal`.
- `input/handler.rs` calls `handle_mouse` with fewer arguments than
  `input/mouse.rs` declares.

The model follows the callee's definition in each case. There is one mode
type (`Normal` / `Focus`), and the viewport width is threaded through the
handlers as a parameter.

## Model

| member | source | states |
|---|---|---|
| Styles.AddModifier | panex-rs/src/process/buffer.rs:181-188 | the switched-on modifiers end in the added set and out of the removed set, while every other modifier and both colours keep their setting |
| Styles.RemoveModifier | panex-rs/src/process/buffer.rs:189-195 | the switched-off modifiers end in the removed set and out of the added set, while every other modifier and both colours keep their setting |
| Styles.AnsiTablesDistinct | panex-rs/src/process/buffer.rs:243-269 | the two 8-colour tables each give eight distinct colours, meet only at 7 (White) and never yield an indexed, RGB or reset colour |
| Emulator.EnsureRow | panex-rs/src/process/buffer.rs:105-116 | the store ends with max(lines, row+1) lines capped at 10,000; the cursor row moves up (saturating) by the number of dropped lines; it lands on an existing row when it was at or above `row`; nothing else changes |
| Emulator.EnsureCol | panex-rs/src/process/buffer.rs:118-127 | afterwards the cursor's row exists and is longer than `col`; only the lines and the cursor row change |
| Emulator.Newline | panex-rs/src/process/buffer.rs:129-133 | the store stays bounded, the cursor row exists and the column is 0 |
| Emulator.PutChar | panex-rs/src/process/buffer.rs:135-144 | the store stays bounded, the cursor row exists and the column advances by exactly one (no wrap, no clamp) |
| Emulator.ClearLineFrom | panex-rs/src/process/buffer.rs:146-152 | the store stays bounded, the cursor row exists, and only lines and cursor row change |
| Emulator.ClearScreenFromCursor | panex-rs/src/process/buffer.rs:154-160 | the store stays within 1..10,000 lines |
| Emulator.ClearScreen | panex-rs/src/process/buffer.rs:162-167 | the store stays within 1..10,000 lines |
| Emulator.BlankPrefix | panex-rs/src/process/buffer.rs:378-389 | blanking the start of a line never changes its length |
| Emulator.ExtendedColor | panex-rs/src/process/buffer.rs:199-228 | a complete `5;n` or `2;r;g;b` form consumes only parameters that exist |
| Emulator.SgrCode | panex-rs/src/process/buffer.rs:176-238 | each SGR code consumes only parameters that exist, so the left-to-right walk never reads past the list |
| Emulator.GetParam | panex-rs/src/process/buffer.rs:309-311 | the result is the parameter when it exists and is non-zero, and the default otherwise |
| Emulator.TrimmedLength | panex-rs/src/process/buffer.rs:68-74 | the trimmed count never exceeds the number of lines |
| EmulatorProps.StepKeepsBounded | panex-rs/src/process/buffer.rs:272-436 | every parser callback keeps between 1 and 10,000 lines |
| EmulatorProps.RunKeepsBounded | panex-rs/src/process/buffer.rs:60-64 | however much output is written, between 1 and 10,000 lines are kept |
| EmulatorProps.RunConcat | panex-rs/src/process/buffer.rs:60-64 | writing two chunks one after the other is writing their concatenation |
| EmulatorProps.RunSnoc | panex-rs/src/process/buffer.rs:60-64 | writing one more callback is one more step |
| EmulatorProps.EnsureRowEffect | panex-rs/src/process/buffer.rs:105-116 | below the cap only empty lines are appended and the cursor stays; above it exactly the excess is dropped from the front and the cursor moves up by as much, stopping at 0; for a row that already exists nothing changes |
| EmulatorProps.EnsureRowPastStore | panex-rs/src/process/buffer.rs:105-116 | when the cursor is past the store, reaching its row leaves the cursor on a new empty last line, at its row or at the last row the store can hold |
| EmulatorProps.PutCharOverwrites | panex-rs/src/process/buffer.rs:135-144 | printing first grows the store to reach the cursor's row (not at all when it exists), then overwrites exactly the cell under the cursor with the character in the current style, pads the row with blanks up to the cursor, advances one column and changes nothing else |
| EmulatorProps.NextTabStopIsNextMultiple | panex-rs/src/process/buffer.rs:284-288 | `(col + 8) & !7` is the least multiple of 8 strictly greater than the column |
| EmulatorProps.ExecuteControls | panex-rs/src/process/buffer.rs:276-299 | BS moves left saturating; HT moves to the next tab stop capped at 1999; LF/VT/FF are a newline; CR goes to column 0; every other control byte changes nothing |
| EmulatorProps.NewlineMovesDown | panex-rs/src/process/buffer.rs:129-133 | below the cap a newline moves to column 0 of the next row and keeps every existing line, also when the cursor was past the store |
| EmulatorProps.MissingOrZeroMeansOne | panex-rs/src/process/buffer.rs:309-352 | for CUU, CUD, CUF, CUB, CNL, CPL and CHA a missing or zero parameter means 1 |
| EmulatorProps.CursorUpAndBackSaturate | panex-rs/src/process/buffer.rs:314-347 | CUU and CPL move up and CUB moves left by the parameter, stopping at 0; CPL also goes to column 0 |
| EmulatorProps.ColumnMovesAreCapped | panex-rs/src/process/buffer.rs:325-360 | CUF, CHA, CUP and HVP never leave the column beyond 1999 |
| EmulatorProps.CursorPositionEffect | panex-rs/src/process/buffer.rs:353-360 | CUP puts the cursor on the 1-based row it names, or on row 10,000 when it names a later one, and at the named column capped at 1999; the store grows to reach that row and nothing else changes |
| EmulatorProps.SaveAndRestore | panex-rs/src/process/buffer.rs:402-412 | save and restore ignore their parameters; save records the cursor and changes nothing else; restore with nothing saved is a no-op, otherwise it goes back to the saved position; save then restore returns the cursor to where it was |
| EmulatorProps.EraseInLineToEnd | panex-rs/src/process/buffer.rs:373-377 | EL 0 first grows the store to reach the cursor's row, then cuts that row at the cursor and changes nothing else; when the row already exists only the cut happens, and when the cursor is past the store only the growth happens |
| EmulatorProps.EraseInLineToCursor | panex-rs/src/process/buffer.rs:378-389 | EL 1 first grows the store to reach the cursor's row, then blanks that row's existing cells up to and including the cursor, keeping its length and its other cells; nothing else changes, and when the cursor is past the store only the growth happens |
| EmulatorProps.EraseInLineOther | panex-rs/src/process/buffer.rs:390-396 | EL 2 first grows the store to reach the cursor's row, then empties that row; other modes change nothing |
| EmulatorProps.EraseInDisplay | panex-rs/src/process/buffer.rs:361-372 | ED 0 leaves exactly as many lines as the cursor's row plus one, with the rows above it kept and its row cut at the cursor, and the cursor stays unless it was past row 10,000; ED 2 and 3 leave one empty line with the cursor at the origin and change nothing else; ED 1 and unknown modes change nothing |
| EmulatorProps.ClearScreenFromCursorEffect | panex-rs/src/process/buffer.rs:154-160 | after ED 0 the store ends at the cursor's row, which is cut at the cursor, the rows above it are kept, the cursor stays unless it was past row 10,000, and nothing else changes |
| EmulatorProps.SgrResets | panex-rs/src/process/buffer.rs:172-212 | an empty SGR and SGR 0 give the default style; 39 and 49 reset the foreground and the background only |
| EmulatorProps.SgrIndexedColor | panex-rs/src/process/buffer.rs:199-228 | `38;5;n` / `48;5;n` set the indexed colour n (cut to 8 bits) and consume two more parameters |
| EmulatorProps.SgrRgbColor | panex-rs/src/process/buffer.rs:203-225 | `38;2;r;g;b` / `48;2;r;g;b` set the RGB colour (each cut to 8 bits) and consume four more parameters |
| EmulatorProps.SgrIncompleteExtendedIgnored | panex-rs/src/process/buffer.rs:199-228 | an incomplete 38/48 is skipped alone and the following parameters are read as codes |
| EmulatorProps.SgrUnknownIgnored | panex-rs/src/process/buffer.rs:236-238 | an unknown code changes nothing and consumes nothing more |
| EmulatorProps.SgrResetForgets | panex-rs/src/process/buffer.rs:180 | a 0 code makes the outcome independent of every earlier setting |
| EmulatorProps.SgrCodeColors | panex-rs/src/process/buffer.rs:196-198 | codes 30–37 set the foreground from the standard table and leave the rest of the style alone |
| EmulatorProps.SgrCodeEffects | panex-rs/src/process/buffer.rs:180-235 | codes 0, 39 and 49 reset the style or one colour; 1–9 switch one attribute on and 22–29 switch attributes off, per an independent code table; 40–47, 90–97 and 100–107 set the named colour; each changes nothing else and consumes no further parameter |
| EmulatorProps.SgrAttributesLayer | panex-rs/src/process/buffer.rs:177-195 | SGR 1;3 leaves bold and italic both switched on, keeping every other attribute and both colours, whatever was set before |
| EmulatorProps.SgrNormalIntensityKeepsItalic | panex-rs/src/process/buffer.rs:177-195 | in SGR 1;3;22 the 22 switches bold and dim off and leaves the italic switched on |
| EmulatorProps.QueryReplies | panex-rs/src/process/buffer.rs:413-433 | DA queues the device-attributes reply whatever its parameters; DSR reads only its first parameter: 5 queues the OK reply, 6 the 1-based cursor position, and any other mode changes nothing; nothing but the queue changes |
| EmulatorProps.ParseWellFormedReport | panex-rs/src/process/buffer.rs:426-430 | a reply of the form `ESC [ digits ; digits R` parses as the values of its two digit strings |
| EmulatorProps.CursorReportRoundTrip | panex-rs/src/process/buffer.rs:426-430 | the cursor position reply `ESC [ row ; col R` parses back to the row and column it reports |
| EmulatorProps.TrimmedLengthMeaning | panex-rs/src/process/buffer.rs:68-74 | every line at or beyond the trimmed count is empty and the line just before it is not |
| EmulatorProps.ContentLineCountMeaning | panex-rs/src/process/buffer.rs:68-74 | the content line count is at least 1 and at most the number of lines; the lines from it on are empty, and the line before it is not unless the count is 1 |
| EmulatorProps.RestorePastStoreTrace | panex-rs/src/process/buffer.rs:353-412 | CUP 6, save, ED 2, restore leaves one line in the store with the cursor on row 6 |
| EmulatorProps.PrintPastStore | panex-rs/src/process/buffer.rs:105-144 | printing with the cursor on row 6 of a one-line store leaves five empty lines and then the character alone |
| EmulatorProps.RestorePastStoreScenario | panex-rs/src/process/buffer.rs:105-144 | after that trace, EL 0 grows the store to six empty lines, and a printed character lands alone on a new sixth line |
| EmulatorProps.OverwriteScenario | panex-rs/src/process/buffer.rs:272-318 | "A", CR, LF, CUU, "B" leaves row 0 holding exactly "B" |
| EmulatorProps.CursorReportScenario | panex-rs/src/process/buffer.rs:353-433 | CUP 3;4 followed by DSR 6 queues exactly `ESC [ 3 ; 4 R` |
| EmulatorProps.ColumnClampScenario | panex-rs/src/process/buffer.rs:353-360 | CUP to column 2500 then a character puts it in cell 1999 of row 0 |
| Terminal.TerminalBuffer.constructor | panex-rs/src/process/buffer.rs:48-53 | one empty line, the cursor at the origin, the default style, nothing saved or pending, at the given size |
| Terminal.TerminalBuffer.Resize | panex-rs/src/process/buffer.rs:55-58 | only the recorded size changes |
| Terminal.TerminalBuffer.EnsureRow | panex-rs/src/process/buffer.rs:105-116 | the push/pop loops leave exactly the state `Emulator.EnsureRow` gives |
| Terminal.TerminalBuffer.EnsureCol | panex-rs/src/process/buffer.rs:118-127 | the padding loop leaves exactly the state `Emulator.EnsureCol` gives |
| Terminal.TerminalBuffer.Newline | panex-rs/src/process/buffer.rs:129-133 | the new state is `Emulator.Newline` of the old |
| Terminal.TerminalBuffer.PutChar | panex-rs/src/process/buffer.rs:135-144 | the new state is `Emulator.PutChar` of the old |
| Terminal.TerminalBuffer.ClearLineFrom | panex-rs/src/process/buffer.rs:146-152 | the new state is `Emulator.ClearLineFrom` of the old |
| Terminal.TerminalBuffer.ClearScreenFromCursor | panex-rs/src/process/buffer.rs:154-160 | the truncate-then-pop loop leaves exactly `Emulator.ClearScreenFromCursor` of the old state |
| Terminal.TerminalBuffer.ClearScreen | panex-rs/src/process/buffer.rs:162-167 | the new state is `Emulator.ClearScreen` of the old |
| Terminal.TerminalBuffer.ParseSgr | panex-rs/src/process/buffer.rs:169-240 | the parameter loop leaves the style `Emulator.Sgr` gives and changes nothing else |
| Terminal.TerminalBuffer.Print | panex-rs/src/process/buffer.rs:272-274 | the new state is one `Print` step |
| Terminal.TerminalBuffer.Execute | panex-rs/src/process/buffer.rs:276-299 | the new state is one `Control` step |
| Terminal.TerminalBuffer.CsiDispatch | panex-rs/src/process/buffer.rs:307-436 | the new state is one `CsiDispatch` step |
| Terminal.TerminalBuffer.MoveCursor | panex-rs/src/process/buffer.rs:314-352 | CUU to CHA leave the state `Emulator.Csi` gives |
| Terminal.TerminalBuffer.CursorPosition | panex-rs/src/process/buffer.rs:353-360 | CUP/HVP leave the state `Emulator.CursorPosition` gives |
| Terminal.TerminalBuffer.EraseInLine | panex-rs/src/process/buffer.rs:373-397 | EL (including the mode-1 blanking loop) leaves the state `Emulator.Csi` gives |
| Terminal.TerminalBuffer.Perform | panex-rs/src/process/buffer.rs:271-436 | any parser callback is one `Step`; hook, put, unhook, OSC and ESC dispatch change nothing |
| Terminal.TerminalBuffer.Write | panex-rs/src/process/buffer.rs:60-64 | writing a chunk of output leaves `Run` of the old state over its callbacks |
| Terminal.TerminalBuffer.ContentLineCount | panex-rs/src/process/buffer.rs:68-74 | the count is between 1 and the number of lines; all lines from it on are empty and the one before it is not (unless the count is 1) |
| Terminal.TerminalBuffer.TakePendingResponses | panex-rs/src/process/buffer.rs:84-86 | returns the queued replies oldest first and empties the queue; nothing else changes |
| Config.IconAndColorAgree | panex-rs/src/config.rs:9-30 | icon and colour agree: filled/green exactly when running, cross/red exactly on failure or non-zero exit, hollow/gray otherwise; each icon is one character |
| Config.Split | panex-rs/src/config.rs:50 | splitting gives at least one piece and no piece contains the separator |
| Config.SplitJoin | panex-rs/src/config.rs:50 | joining the pieces of a split with the separator gives back the string |
| Config.JoinSplit | panex-rs/src/config.rs:50 | splitting the join of separator-free pieces gives back the pieces |
| Config.Trim | panex-rs/src/config.rs:50 | the trimmed name is the slice after the leading white space; everything cut off on either side is white space, and the result neither starts nor ends with white space |
| Config.NameList | panex-rs/src/config.rs:49-51 | no `--names` gives no names; otherwise one trimmed name per comma-separated piece |
| Config.TrimEndMatches | panex-rs/src/config.rs:69-79 | the result is a prefix that no longer ends with the pattern, and it is shorter exactly when the input ended with the pattern |
| Config.TrimEndMatchesCutsRepeats | panex-rs/src/config.rs:69-79 | what `trim_end_matches` cuts off is a whole number of repetitions of the pattern |
| Config.SuffixFlagsMeaning | panex-rs/src/config.rs:64-79 | the name is a stem followed by `!`/`:w` tokens in any order; the recorded no-Shift+Tab flag is set exactly when a `!` is present, and wrapping is on exactly when a `:w` is present |
| Config.DefaultNameHasNoSuffix | panex-rs/src/config.rs:57-60 | a default `proc{n}` name enables neither flag |
| Config.ParseSuffixes | panex-rs/src/config.rs:64-79 | the stripping loop computes exactly the two flags `SuffixFlags` describes |
| Config.FromArgs | panex-rs/src/config.rs:48-94 | one configuration per command, in order, each named from the list or `proc{i+1}` with its flags from the name's suffixes; the global flag and the timeout pass through |
| Supervisor.Fresh | panex-rs/src/process/manager.rs:24-37 | a new process is Stopped, holds no PTY, is at generation 0, follows output at offset 0 and wraps as configured |
| Supervisor.StartEffect | panex-rs/src/process/manager.rs:68-127 | a start always advances the generation; a successful spawn makes the process Running on the new PTY; a failed one changes nothing else |
| Supervisor.KillEffect | panex-rs/src/process/manager.rs:159-169 | killing is idempotent, keeps the generation and ends Stopped without a PTY |
| Supervisor.StepsPreserveConsistency | panex-rs/src/process/manager.rs:68-328 | start, kill, exit, error and the force-kill all keep "Running exactly when a PTY is held" |
| Supervisor.FinishEffect | panex-rs/src/process/manager.rs:316-328 | the force-kill stops a running process and leaves every other process as it was |
| Supervisor.CountsAddUp | panex-rs/src/process/manager.rs:301-313 | stopped plus running processes are all processes; something is running exactly when not all are stopped |
| Supervisor.TableStepsPreserveConsistency | panex-rs/src/process/manager.rs:68-268 | every table-level operation keeps the set of names and keeps every entry consistent |
| Supervisor.StaleEventsIgnored | panex-rs/src/process/manager.rs:241-268 | an exit or error for an unknown name or an old generation changes nothing |
| Supervisor.StartMakesOldEventsStale | panex-rs/src/process/manager.rs:76-79 | after any start the previous reader's events are stale and only the new generation's are accepted |
| Supervisor.ExitAfterKillIsAccepted | panex-rs/src/process/manager.rs:159-255 | a kill keeps the generation, so the exit its reader reports afterwards is accepted and marks the process Exited |
| Supervisor.FinishAllStopsEverything | panex-rs/src/process/manager.rs:316-328 | after the force-kill pass nothing runs, every process counts as stopped, and processes that were not running are unchanged |
| Supervisor.FirstFailure | panex-rs/src/process/manager.rs:129-135 | the index of the first failing spawn: all spawns before it succeed |
| Supervisor.StartEachFailFast | panex-rs/src/process/manager.rs:129-135 | starting all is Ok exactly when every spawn succeeds, otherwise it is the first failure's error; the processes after the failure are untouched and the names never change |
| Supervisor.StartEachAllSucceed | panex-rs/src/process/manager.rs:129-135 | when every spawn succeeds, every process ends Running on a PTY |
| Supervisor.KillEachEffect | panex-rs/src/process/manager.rs:146-149 | killing a list of names kills exactly the listed processes |
| Supervisor.RunningPtysAreRunning | panex-rs/src/process/manager.rs:287-298 | shutdown signals only the PTYs of listed running processes, and nothing when none runs |
| Supervisor.RunningPtysCoverRunning | panex-rs/src/process/manager.rs:287-298 | shutdown signals the PTY of every listed process that is running and holds one |
| Supervisor.AfterOutput | panex-rs/src/process/manager.rs:208-237 | after output only the scroll offset may move, and only for a process following output, to the auto-scroll offset |
| Supervisor.AutoScrollShowsBottom | panex-rs/src/process/manager.rs:208-237 | the auto-scroll offset puts the window's end exactly at the content's end when the content is taller than the view, and is 0 otherwise |
| Manager.NameAt | panex-rs/src/input/handler.rs:38 | the selected name exists exactly when the index is inside the order, and it is the name at that index |
| Manager.ResizeBuffers | panex-rs/src/process/manager.rs:183-188 | every buffer records the new size and nothing else in it changes |
| Manager.Feed | panex-rs/src/process/manager.rs:198-201 | the buffer ends as the output's run with its queue emptied, and the replies returned are exactly those queued |
| Manager.FollowOffset | panex-rs/src/process/manager.rs:208-237 | the counting loops compute the auto-scroll offset |
| Manager.ProcessManager.constructor | panex-rs/src/process/manager.rs:50-59 | no processes, an empty order, the given size and timeout |
| Manager.ProcessManager.SetProcess | panex-rs/src/process/manager.rs:274-276 | updating a process through its entry changes only that entry |
| Manager.ProcessManager.AddProcess | panex-rs/src/process/manager.rs:61-66 | a fresh process on a fresh buffer at the manager's size replaces any process of that name, and the name is appended to the order even if already there |
| Manager.ProcessManager.StartProcess | panex-rs/src/process/manager.rs:68-127 | an unknown name is an error and changes nothing; otherwise the result and the new table are the table-level start's |
| Manager.ProcessManager.StartAll | panex-rs/src/process/manager.rs:129-135 | the loop over the order is the fail-fast table-level start of every name |
| Manager.ProcessManager.RestartProcess | panex-rs/src/process/manager.rs:137-142 | a kill followed by a start, whose outcome is the result |
| Manager.ProcessManager.RestartAll | panex-rs/src/process/manager.rs:144-157 | every process killed, then every one started in order, fail-fast |
| Manager.ProcessManager.KillProcess | panex-rs/src/process/manager.rs:159-169 | always Ok; an unknown name changes nothing, a known process ends Stopped without a PTY |
| Manager.ProcessManager.WriteToProcess | panex-rs/src/process/manager.rs:171-178 | bytes go to the process's PTY and the write's outcome is the result when the name is known and has a PTY; otherwise nothing is written and the result is Ok |
| Manager.ProcessManager.Resize | panex-rs/src/process/manager.rs:180-189 | records the new size and resizes every buffer; the process records and the order are unchanged |
| Manager.ProcessManager.HandleOutput | panex-rs/src/process/manager.rs:191-239 | stale output changes nothing; otherwise the buffer runs the output, its replies are sent when a PTY is held, a following process scrolls to the bottom, and no other buffer changes |
| Manager.ProcessManager.Deliver | panex-rs/src/process/manager.rs:198-206 | the named buffer runs the output with its queue drained; the replies are sent exactly when the process has a PTY; no other buffer changes |
| Manager.ProcessManager.HandleExit | panex-rs/src/process/manager.rs:241-255 | a live generation's exit makes the process Exited with the code (0 when none); stale exits change nothing |
| Manager.ProcessManager.HandleError | panex-rs/src/process/manager.rs:257-268 | a live generation's read error makes the process Failed with the message; stale errors change nothing |
| Manager.ProcessManager.BeginShutdown | panex-rs/src/process/manager.rs:287-298 | it returns exactly the PTYs of the running processes in list order, as the ones to be sent a termination request, and changes no state |
| Manager.ProcessManager.FinishShutdown | panex-rs/src/process/manager.rs:316-328 | every running process, in order, ends Stopped without a PTY |
| Manager.ProcessManager.FinishOne | panex-rs/src/process/manager.rs:318-326 | one process force-killed when running, otherwise left as it was |
| Manager.ProcessManager.StoppedCount | panex-rs/src/process/manager.rs:301-306 | the stopped count plus the running processes are all processes |
| Manager.ProcessManager.AnyRunning | panex-rs/src/process/manager.rs:309-313 | something runs exactly when fewer than all processes are stopped |
| OutputPanel.ChunksPartitionLine | panex-rs/src/ui/output_panel.rs:36-45 | a line's chunks put together give the line back, none is empty or wider than the width, and there are as many as the line needs rows |
| OutputPanel.WrapLinesCount | panex-rs/src/ui/output_panel.rs:84-97 | wrap mode produces exactly as many rows as the display line count's sum |
| OutputPanel.WrapLinesFit | panex-rs/src/ui/output_panel.rs:30-52 | no wrapped row is wider than the viewport |
| OutputPanel.ChunksOf | panex-rs/src/ui/output_panel.rs:37-44 | the chunking loop produces exactly the line's chunks |
| OutputPanel.WindowBounds | panex-rs/src/ui/output_panel.rs:47-57 | the window lies within the rows and the height, starts at the offset when that row exists, and is full when enough rows follow |
| OutputPanel.Truncate | panex-rs/src/ui/output_panel.rs:62-71 | a truncated line is a prefix no wider than the width, and a line that fits is kept whole |
| OutputPanel.RenderedFits | panex-rs/src/ui/output_panel.rs:23-80 | whatever is shown has no more rows than the height and no row wider than the width |
| OutputPanel.RenderedTruncatesContent | panex-rs/src/ui/output_panel.rs:53-73 | unwrapped, the panel shows content lines from the offset, each truncated, never past the content, and fills the height when it can |
| OutputPanel.Render | panex-rs/src/ui/output_panel.rs:23-80 | no process shows the placeholder; otherwise the rendered rows of its buffer at its offset and wrap setting |
| OutputPanel.RenderWrapped | panex-rs/src/ui/output_panel.rs:30-52 | the wrap branch computes the wrapped rendering |
| OutputPanel.RenderUnwrapped | panex-rs/src/ui/output_panel.rs:53-73 | the non-wrap branch computes the unwrapped rendering |
| OutputPanel.WrapAll | panex-rs/src/ui/output_panel.rs:32-46 | the loop over lines produces exactly all wrapped rows, line by line |
| OutputPanel.TruncateEach | panex-rs/src/ui/output_panel.rs:59-72 | one truncated row per line of the window, in order |
| OutputPanel.DisplayLineCountIsRenderedTotal | panex-rs/src/ui/output_panel.rs:84-97 | the display line count is the number of rows rendering windows over: all wrapped rows, or the content lines |
| OutputPanel.ScrollUp | panex-rs/src/ui/output_panel.rs:99-102 | the offset goes up by the amount, stopping at 0, and the process stops following output |
| OutputPanel.ScrolledDown | panex-rs/src/ui/output_panel.rs:104-113 | the offset goes down by the amount, stopping at the largest offset that fills the view; reaching it resumes following, and scrolling down never stops following |
| OutputPanel.ScrollDown | panex-rs/src/ui/output_panel.rs:104-113 | scrolling a process down counts its buffer's display rows, as `ScrolledDown` describes |
| OutputPanel.ScrollToTop | panex-rs/src/ui/output_panel.rs:115-118 | jumping to the top is offset 0 without following, the same as scrolling up by the whole offset |
| OutputPanel.ScrolledToBottom | panex-rs/src/ui/output_panel.rs:120-125 | jumping to the bottom sets the largest offset and resumes following; it equals scrolling down by that offset |
| OutputPanel.ScrollToBottom | panex-rs/src/ui/output_panel.rs:120-125 | jumping a process to the bottom counts its buffer's display rows, as `ScrolledToBottom` describes |
| OutputPanel.JumpsAreIdempotent | panex-rs/src/ui/output_panel.rs:115-125 | jumping to the top or to the bottom twice is jumping once |
| OutputPanel.DisplayLines | panex-rs/src/ui/output_panel.rs:84-97 | the counting loop gives the display line count, which is at least 1 |
| OutputPanel.BottomShowsLastRows | panex-rs/src/ui/output_panel.rs:47-57 | at the largest offset the window ends at the last row and shows as many rows as fit |
| OutputPanel.ScrollUpThenDown | panex-rs/src/ui/output_panel.rs:99-113 | scrolling up and then down by the same amount returns to an offset that was in range |
| OutputPanel.AutoScrollWithinRange | panex-rs/src/process/manager.rs:208-237 | the offset output auto-scrolls to never exceeds the largest offset the panel can scroll to |
| App.SelectionStaysInList | panex-rs/src/ui/app.rs:26-36 | in a non-empty list next and previous always land on an entry; in an empty list nothing moves |
| App.NextAndPrevAreInverse | panex-rs/src/ui/app.rs:26-36 | inside the list next and previous undo each other and wrap between the last entry and the first |
| App.NextTimesCycles | panex-rs/src/ui/app.rs:26-30 | k presses of next move k entries round the list, so `count` presses come back |
| App.App.constructor | panex-rs/src/ui/app.rs:16-24 | the first process selected, Normal mode, no help, not quitting, with the given Shift+Tab flag |
| App.App.SelectNext | panex-rs/src/ui/app.rs:26-30 | the selection moves to the next index, wrapping; nothing else changes |
| App.App.SelectPrev | panex-rs/src/ui/app.rs:32-36 | the selection moves to the previous index, wrapping; nothing else changes |
| App.App.EnterFocus | panex-rs/src/ui/app.rs:38-40 | Focus mode; nothing else changes |
| App.App.ExitFocus | panex-rs/src/ui/app.rs:42-44 | Normal mode; nothing else changes |
| App.App.ToggleHelp | panex-rs/src/ui/app.rs:46-48 | the help flag flips; nothing else changes |
| App.App.Quit | panex-rs/src/ui/app.rs:50-52 | quitting is requested; nothing else changes |
| Mouse.Click | panex-rs/src/input/mouse.rs:32-51 | a press below the visible rows leaves focus; on the list it selects the row's process when there is one and leaves focus; on the panel it enters focus; on the divider nothing changes; help and quit are never touched |
| Mouse.ClickKeepsSelectionInList | panex-rs/src/input/mouse.rs:38-46 | a click never moves a valid selection out of the list |
| Mouse.MouseProcesses | panex-rs/src/input/mouse.rs:8-54 | only the wheel touches the processes, and only the selected one; the names never change |
| Mouse.WheelMovesThreeRows | panex-rs/src/input/mouse.rs:6-31 | the wheel moves up three rows stopping at 0, or down three stopping at the largest offset |
| Mouse.HandleMouse | panex-rs/src/input/mouse.rs:8-54 | the application state and the process table change exactly as `MouseApp` and `MouseProcesses` describe |
| Handler.AsciiLower | panex-rs/src/input/handler.rs:149 | ASCII upper-case letters are lowered and every other character is kept |
| Handler.CtrlByte | panex-rs/src/input/handler.rs:147-154 | Ctrl with a letter sends its control code 1–26, whatever the letter's case |
| Handler.Utf8 | panex-rs/src/input/handler.rs:157-158 | a character encodes to one to four bytes, one exactly for ASCII |
| Handler.Utf8RoundTrip | panex-rs/src/input/handler.rs:157-158 | the encoding decodes back to the character, the lead byte announces the length and the others are continuation bytes |
| Handler.FunctionKeyBytes | panex-rs/src/input/handler.rs:175-192 | F1–F12 send an escape sequence of at least three bytes; other function keys send nothing |
| Handler.KeyToBytes | panex-rs/src/input/handler.rs:141-197 | a character always sends bytes: Ctrl gives its control byte (ESC-prefixed with Alt), Alt alone gives ESC and its low byte, otherwise its UTF-8 encoding |
| Handler.FunctionKeysDistinct | panex-rs/src/input/handler.rs:175-192 | different function keys send different sequences |
| Handler.SpecialKeysDecode | panex-rs/src/input/handler.rs:161-192 | every non-character key that sends something can be identified from its bytes, whatever the modifiers |
| Handler.BrowseCommandOf | panex-rs/src/input/handler.rs:40-115 | the Normal-mode key table: q or Ctrl+C quit, arrows select, Enter/Tab focus, r, A and x restart, restart all and kill, g pins, t and b jump, PageUp/PageDown page, ? toggles help; each command exactly for its keys |
| Handler.PinToggles | panex-rs/src/input/handler.rs:69-109 | `g` flips following, keeping the offset when it stops and jumping to the bottom when it starts; every scrolling key touches only the offset and the flag |
| Handler.BrowseTouchesOnlyItsProcess | panex-rs/src/input/handler.rs:36-116 | only restarts, kills and scrolling touch processes; only restart-all touches one other than the selected; kill and scrolling keep generations; names never change |
| Handler.ScrollTouchesOnlySelected | panex-rs/src/input/handler.rs:69-109 | scrolling changes at most the selected process and never a generation |
| Handler.LifecycleTouchesOnlySelected | panex-rs/src/input/handler.rs:52-67 | restart and kill keep the names and touch only the selected process, except restart-all; a kill keeps every generation |
| Handler.ApplyScroll | panex-rs/src/input/handler.rs:69-109 | a scrolling key changes the selected process exactly as `ScrollEffect` describes |
| Handler.BrowseOnApp | panex-rs/src/input/handler.rs:40-112 | quit, select, focus and help keys change the application state as `BrowseApp` describes |
| Handler.BrowseLifecycle | panex-rs/src/input/handler.rs:52-67 | r restarts the selected process, A restarts all and x kills the selected process, as `Lifecycle` describes |
| Handler.BrowseScroll | panex-rs/src/input/handler.rs:69-109 | the scrolling keys act on the selected process as `ScrollSelected` describes |
| Handler.HandleBrowseKey | panex-rs/src/input/handler.rs:36-116 | a Normal-mode key changes the application and the processes as its command describes |
| Handler.RunBrowseCommand | panex-rs/src/input/handler.rs:36-116 | each Normal-mode command changes the application state and the process table as the specification of that command says, and keeps the manager valid |
| Handler.FocusApp | panex-rs/src/input/handler.rs:118-130 | Esc always leaves focus; Shift+Tab leaves it unless disabled; no other key changes the application state |
| Handler.FocusWrite | panex-rs/src/input/handler.rs:132-138 | a Focus-mode key writes only if it does not leave focus, and then its bytes go to the selected process's PTY |
| Handler.BackTabIsNeverForwarded | panex-rs/src/input/handler.rs:118-139 | in Focus mode Shift+Tab is never written to a process, and it leaves focus exactly when the global `--no-shift-tab` flag is off |
| Handler.HandleFocusKey | panex-rs/src/input/handler.rs:118-139 | the application state and the bytes written are those of `FocusApp` and `FocusWrite` |
| Handler.KeyWrite | panex-rs/src/input/handler.rs:23-34 | a key writes bytes only in Focus mode with the help popup closed, and then it writes the key's bytes |
| Handler.KeysKeepSelectionInList | panex-rs/src/input/handler.rs:23-50 | no key moves a valid selection out of the list |
| Handler.HandleKey | panex-rs/src/input/handler.rs:23-34 | an open help popup is closed and nothing else happens; otherwise the key is handled by mode |
| Handler.HandleEvent | panex-rs/src/input/handler.rs:6-21 | keys and mouse events are dispatched; a resize gives the processes the panel's size (terminal minus 21 columns and 1 row) and changes nothing else |

## Left out

- `process/pty.rs` is not part of this model. A PTY is an opaque token. Spawning is a parameter (`Spawned(pty)` or `SpawnFailed(reason)`). Writes and termination requests are returned as values, and resizing a PTY has no effect.
- The reader threads, the `AtomicBool` shutdown flags and the `mpsc` event channel are left out. Output, exit and error events arrive as method calls carrying the reader's generation.
- The sleeps and the timeout wait in shutdown are left out. The timeout is stored and passed through, and shutdown is the two passes `BeginShutdown` and `FinishShutdown`.
- The `vte` byte-level parser is outside the model. Output arrives as the parser's callbacks (`Emulator.Action`), and CSI parameters arrive already flattened. The `hook`, `put`, `unhook`, `osc_dispatch` and `esc_dispatch` callbacks do nothing.
- `main.rs`, `event.rs`, `mod.rs`, the process list, status bar and help popup widgets, and ratatui's `Paragraph`/`Span`/`Buffer` are left out. Rendering yields rows of styled cells rather than drawing them.
- Characters are one column wide. Unicode width is not modelled.
- The accessors `get_all_lines`, `cursor_row`, `get_process`, `process_names` and `process_count` are direct reads of the model's fields.
- panex does not promise these, so the model does not claim them as invariants:
  - line widths stay within 2,000 cells (a printed character can still extend a line beyond that)
  - process names are unique
  - the cursor row is always inside the line store (`EmulatorProps.RestorePastStoreTrace` shows a restore leaving it outside)
- Emulator.ClearScreenFromCursor: the function's own contract states only the line-count bounds. Its full effect is stated by `EmulatorProps.ClearScreenFromCursorEffect` and `EmulatorProps.EraseInDisplay`.
- Emulator.ClearScreen: the function's own contract states only the line-count bounds. Its full effect is stated by `EmulatorProps.EraseInDisplay`.
- Emulator.Newline: the function's own contract gives only bounds and column 0. The full effect below the cap is `EmulatorProps.NewlineMovesDown`.
- Emulator.PutChar: the function's own contract gives only bounds and the column. The full effect is `EmulatorProps.PutCharOverwrites`.
- Emulator.SgrCode: the function's own contract states only how many parameters a code consumes. The effect of each code is stated by `EmulatorProps.SgrCodeEffects`, `SgrCodeColors`, `SgrIndexedColor`, `SgrRgbColor`, `SgrIncompleteExtendedIgnored` and `SgrUnknownIgnored`.
- BeginShutdown (Manager.ProcessManager.BeginShutdown): the per-process `AtomicBool` shutdown flag it sets is not modelled (the reader threads are left out), and the termination requests are returned rather than sent.
- The per-process no-Shift+Tab flag that a `!` name suffix sets is recorded in `ProcessConfig.noShiftTab`, but `input/handler.rs` consults only the global `--no-shift-tab` flag, so no modelled operation reads the per-process flag. `main.rs`, which is not part of this model, passes it to the status bar.
- Handler.HandleFocusKey: the outcome of the PTY write is a parameter and is discarded, as panex discards it.
- The handlers take the output panel's viewport width as a parameter, because `input/handler.rs` calls the scrolling functions without it. The list mode is the `Normal` of `ui/app.rs`, where `input/handler.rs` says `Browse`.
- `u16` sizes and parameters are the subset type `U16`; `usize` and `u64` are unbounded naturals. The model has no arithmetic that would overflow them except the `as u8` casts of SGR colour parameters, which are written out as `% 256`.
- `ProcessStatus` exit codes are `I32` values, because the model never computes with them.
