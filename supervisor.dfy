/**
 * The process supervisor's bookkeeping as values: what each manager
 * operation does to one process's record and to the table of records, and
 * what is proved about it (the generation rule that discards stale events,
 * the "running exactly when a PTY is held" invariant, fail-fast start-up,
 * shutdown and counting, and the auto-scroll target).
 *
 * A PTY is an opaque token, and whether spawning one succeeds is an input.
 */
module Supervisor {
  import opened Wrappers
  import opened Config
  import opened Emulator
  import opened Terminal

  /** An open pseudo-terminal with a child process behind it. */
  datatype Pty = Pty(id: nat)

  /** The outcome of trying to spawn a command on a new PTY. */
  datatype Spawn = Spawned(pty: Pty) | SpawnFailed(reason: string)

  /**
   * A managed process: its configuration, its terminal buffer, and the
   * fields the supervisor and the viewport change. The buffer is the one
   * object a process refers to; everything else is a value.
   */
  datatype ManagedProcess = ManagedProcess(
    config: ProcessConfig,
    buffer: TerminalBuffer,
    status: ProcessStatus,
    pty: Option<Pty>,
    scrollOffset: nat,
    autoScroll: bool,
    wrapEnabled: bool,
    generation: nat)

  type Table = map<string, ManagedProcess>

  /** A process is running exactly when it holds a PTY. */
  predicate Consistent(p: ManagedProcess)
  {
    p.status.Running? <==> p.pty.Some?
  }

  predicate AllConsistent(t: Table)
  {
    forall n :: n in t ==> Consistent(t[n])
  }

  /** A newly added process: stopped, no PTY, generation 0, following output, wrapping as configured. */
  function Fresh(config: ProcessConfig, buffer: TerminalBuffer): (p: ManagedProcess)
    ensures p.config == config && p.buffer == buffer
    ensures Consistent(p) && p.status == Stopped && p.pty.None? && p.generation == 0
    ensures p.scrollOffset == 0 && p.autoScroll && p.wrapEnabled == config.wrapEnabled
  {
    ManagedProcess(config, buffer, Stopped, None, 0, true, config.wrapEnabled, 0)
  }

  // ---------------------------------------------------------------- one process

  /**
   * Starting bumps the generation first; a successful spawn then makes the
   * process Running on the new PTY, a failed one leaves everything else as it was.
   */
  function Start(p: ManagedProcess, spawn: Spawn): ManagedProcess
  {
    var p1 := p.(generation := p.generation + 1);
    match spawn
    case Spawned(pty) => p1.(pty := Some(pty), status := Running)
    case SpawnFailed(_) => p1
  }

  function Kill(p: ManagedProcess): ManagedProcess
  {
    p.(pty := None, status := Stopped)
  }

  /** The reader saw end of output: Exited with the code, 0 when there is none. */
  function Exit(p: ManagedProcess, code: Option<I32>): ManagedProcess
  {
    p.(pty := None, status := Exited(if code.Some? then code.value else 0))
  }

  function Fail(p: ManagedProcess, message: string): ManagedProcess
  {
    p.(pty := None, status := Failed(message))
  }

  /** The force-kill pass of shutdown: running processes become Stopped, others are left alone. */
  function Finish(p: ManagedProcess): ManagedProcess
  {
    if p.status.Running? then p.(pty := None, status := Stopped) else p
  }

  lemma StartEffect(p: ManagedProcess, spawn: Spawn)
    ensures var r := Start(p, spawn);
      && r.generation == p.generation + 1
      && (spawn.Spawned? ==> r.status == Running && r.pty == Some(spawn.pty))
      && (spawn.SpawnFailed? ==> r == p.(generation := p.generation + 1))
      && r.scrollOffset == p.scrollOffset && r.autoScroll == p.autoScroll && r.wrapEnabled == p.wrapEnabled
      && r.config == p.config && r.buffer == p.buffer
  {
  }

  /** Killing is idempotent, never touches the generation, and always ends Stopped without a PTY. */
  lemma KillEffect(p: ManagedProcess)
    ensures Kill(Kill(p)) == Kill(p)
    ensures Kill(p).generation == p.generation && Kill(p).status == Stopped && Kill(p).pty.None?
    ensures Consistent(Kill(p))
  {
  }

  /** Every single-process step keeps "running exactly when a PTY is held". */
  lemma StepsPreserveConsistency(p: ManagedProcess, spawn: Spawn, code: Option<I32>, message: string)
    requires Consistent(p)
    ensures Consistent(Start(p, spawn)) && Consistent(Kill(p)) && Consistent(Exit(p, code))
    ensures Consistent(Fail(p, message)) && Consistent(Finish(p))
  {
  }

  /** After the force-kill pass nothing is running and nothing holds a PTY; other statuses are kept. */
  lemma FinishEffect(p: ManagedProcess)
    requires Consistent(p)
    ensures !Finish(p).status.Running? && Finish(p).pty.None?
    ensures !p.status.Running? ==> Finish(p) == p
    ensures p.status.Running? ==> Finish(p) == Kill(p)
  {
  }

  // ---------------------------------------------------------------- the table

  function StartIn(t: Table, name: string, spawn: Spawn): (Table, Result<()>)
  {
    if name !in t then (t, Err("Process not found: " + name))
    else
      var p := Start(t[name], spawn);
      (t[name := p], if spawn.Spawned? then Ok(()) else Err(spawn.reason))
  }

  function KillIn(t: Table, name: string): Table
  {
    if name in t then t[name := Kill(t[name])] else t
  }

  /** Start the named processes in order, stopping at the first failure. */
  function StartEach(t: Table, names: seq<string>, spawns: seq<Spawn>): (Table, Result<()>)
    requires |spawns| == |names|
    decreases |names|
  {
    if names == [] then (t, Ok(()))
    else
      var (t1, r) := StartIn(t, names[0], spawns[0]);
      if r.Err? then (t1, r) else StartEach(t1, names[1..], spawns[1..])
  }

  function KillEach(t: Table, names: seq<string>): Table
    decreases |names|
  {
    if names == [] then t else KillEach(KillIn(t, names[0]), names[1..])
  }

  function FinishAll(t: Table): Table
  {
    map n | n in t :: Finish(t[n])
  }

  /** Events from an older generation of the named process, or about an unknown name. */
  predicate Stale(t: Table, name: string, gen: nat)
  {
    name !in t || t[name].generation != gen
  }

  function ExitIn(t: Table, name: string, gen: nat, code: Option<I32>): Table
  {
    if Stale(t, name, gen) then t else t[name := Exit(t[name], code)]
  }

  function FailIn(t: Table, name: string, gen: nat, message: string): Table
  {
    if Stale(t, name, gen) then t else t[name := Fail(t[name], message)]
  }

  /** The running processes' PTYs, one per mention in `names`, in that order. */
  function RunningPtys(t: Table, names: seq<string>): seq<Pty>
    decreases |names|
  {
    if names == [] then []
    else
      var rest := RunningPtys(t, names[..|names| - 1]);
      var n := names[|names| - 1];
      if n in t && t[n].status.Running? && t[n].pty.Some? then rest + [t[n].pty.value] else rest
  }

  function RunningNames(t: Table): set<string>
  {
    set n | n in t && t[n].status.Running?
  }

  function StoppedNames(t: Table): set<string>
  {
    set n | n in t && !t[n].status.Running?
  }

  /** How many processes are not running (stopped, exited or failed). */
  function StoppedCount(t: Table): nat
  {
    |StoppedNames(t)|
  }

  function AnyRunning(t: Table): bool
  {
    exists n :: n in t && t[n].status.Running?
  }

  /** Not-running and running processes together are all the processes; one is running iff not all are stopped. */
  lemma CountsAddUp(t: Table)
    ensures StoppedCount(t) + |RunningNames(t)| == |t|
    ensures AnyRunning(t) <==> StoppedCount(t) < |t|
  {
    var keys := t.Keys;
    assert StoppedNames(t) + RunningNames(t) == keys;
    assert StoppedNames(t) !! RunningNames(t);
    assert |keys| == |t|;
    if AnyRunning(t) {
      var n :| n in t && t[n].status.Running?;
      assert n in RunningNames(t);
    } else {
      assert RunningNames(t) == {};
    }
  }

  /** A table-level step changes at most the named entry, and keeps every entry consistent. */
  lemma TableStepsPreserveConsistency(t: Table, name: string, gen: nat, spawn: Spawn, code: Option<I32>, message: string)
    requires AllConsistent(t)
    ensures AllConsistent(StartIn(t, name, spawn).0) && AllConsistent(KillIn(t, name))
    ensures AllConsistent(ExitIn(t, name, gen, code)) && AllConsistent(FailIn(t, name, gen, message))
    ensures AllConsistent(FinishAll(t))
    ensures StartIn(t, name, spawn).0.Keys == t.Keys && KillIn(t, name).Keys == t.Keys
    ensures ExitIn(t, name, gen, code).Keys == t.Keys && FailIn(t, name, gen, message).Keys == t.Keys
  {
  }

  /**
   * Stale events change nothing: an exit or an error reported for a name
   * that is unknown, or under a generation other than the live one, is dropped.
   */
  lemma StaleEventsIgnored(t: Table, name: string, gen: nat, code: Option<I32>, message: string)
    requires Stale(t, name, gen)
    ensures ExitIn(t, name, gen, code) == t && FailIn(t, name, gen, message) == t
  {
  }

  /** After a start the old reader's generation is stale, whether or not the spawn worked. */
  lemma StartMakesOldEventsStale(t: Table, name: string, spawn: Spawn)
    requires name in t
    ensures Stale(StartIn(t, name, spawn).0, name, t[name].generation)
    ensures !Stale(StartIn(t, name, spawn).0, name, t[name].generation + 1)
  {
  }

  /**
   * Killing does not move the generation, so an exit the killed reader
   * reports afterwards is not stale and turns Stopped into Exited.
   */
  lemma ExitAfterKillIsAccepted(t: Table, name: string, code: Option<I32>)
    requires name in t
    ensures var k := KillIn(t, name);
      !Stale(k, name, t[name].generation)
      && ExitIn(k, name, t[name].generation, code)[name].status == Exited(if code.Some? then code.value else 0)
  {
  }

  /** The force-kill pass leaves nothing running and every process not running counted. */
  lemma {:induction false} FinishAllStopsEverything(t: Table)
    requires AllConsistent(t)
    ensures !AnyRunning(FinishAll(t))
    ensures StoppedCount(FinishAll(t)) == |t|
    ensures forall n :: n in t && !t[n].status.Running? ==> FinishAll(t)[n] == t[n]
  {
    var f := FinishAll(t);
    assert f.Keys == t.Keys;
    CountsAddUp(f);
    assert RunningNames(f) == {};
  }

  /** The first index whose spawn fails, or |spawns| when all succeed. */
  function FirstFailure(spawns: seq<Spawn>): (k: nat)
    ensures k <= |spawns|
    ensures forall i :: 0 <= i < k ==> spawns[i].Spawned?
    ensures k < |spawns| ==> spawns[k].SpawnFailed?
  {
    if spawns == [] then 0
    else if spawns[0].SpawnFailed? then 0
    else 1 + FirstFailure(spawns[1..])
  }

  /**
   * Fail-fast start-up over known names: the result is Ok exactly when every
   * spawn succeeds, and otherwise it is the first failure's reason; the
   * entries of names that come only after the failure are untouched, and
   * the keys never change.
   */
  lemma {:induction false} StartEachFailFast(t: Table, names: seq<string>, spawns: seq<Spawn>)
    requires |spawns| == |names|
    requires forall i :: 0 <= i < |names| ==> names[i] in t
    ensures var (t', r) := StartEach(t, names, spawns);
      var k := FirstFailure(spawns);
      && t'.Keys == t.Keys
      && (r.Ok? <==> k == |spawns|)
      && (k < |spawns| ==> r == Err(spawns[k].reason))
      && (forall n :: n in t && n !in names[..Min(k + 1, |names|)] ==> t'[n] == t[n])
    decreases |names|
  {
    if names != [] {
      var (t1, r1) := StartIn(t, names[0], spawns[0]);
      if r1.Ok? {
        assert t1 == t[names[0] := Start(t[names[0]], spawns[0])];
        assert StartEach(t, names, spawns) == StartEach(t1, names[1..], spawns[1..]);
        StartEachFailFast(t1, names[1..], spawns[1..]);
        var k := FirstFailure(spawns);
        assert k == 1 + FirstFailure(spawns[1..]);
        var rest := StartEach(t1, names[1..], spawns[1..]).0;
        forall n | n in t && n !in names[..Min(k + 1, |names|)]
          ensures rest[n] == t[n]
        {
          NotInPrefix(names, n, Min(k, |names| - 1));
        }
      } else {
        assert FirstFailure(spawns) == 0;
      }
    }
  }

  /** A name missing from a non-empty prefix is neither the first name nor in the rest of the prefix. */
  lemma NotInPrefix(names: seq<string>, n: string, m: nat)
    requires m < |names| && n !in names[..m + 1]
    ensures n != names[0] && n !in names[1..][..m]
  {
    assert names[..m + 1] == [names[0]] + names[1..][..m];
  }

  /** When every spawn succeeds, every named process ends Running on a PTY. */
  lemma {:induction false} StartEachAllSucceed(t: Table, names: seq<string>, spawns: seq<Spawn>)
    requires |spawns| == |names|
    requires forall i :: 0 <= i < |names| ==> names[i] in t
    requires forall i :: 0 <= i < |spawns| ==> spawns[i].Spawned?
    ensures var (t', r) := StartEach(t, names, spawns);
      && r == Ok(()) && t'.Keys == t.Keys
      && forall i :: 0 <= i < |names| ==> t'[names[i]].status == Running && t'[names[i]].pty.Some?
    decreases |names|
  {
    if names != [] {
      var (t1, r1) := StartIn(t, names[0], spawns[0]);
      StartEachAllSucceed(t1, names[1..], spawns[1..]);
      var t' := StartEach(t1, names[1..], spawns[1..]).0;
      StartEachFailFast(t1, names[1..], spawns[1..]);
      if names[0] !in names[1..] {
        assert t'[names[0]] == t1[names[0]];
      } else {
        var j :| 0 <= j < |names[1..]| && names[1..][j] == names[0];
        assert t'[names[1..][j]].status == Running;
      }
      forall i | 1 <= i < |names|
        ensures t'[names[i]].status == Running && t'[names[i]].pty.Some?
      {
        assert names[i] == names[1..][i - 1];
      }
    }
  }

  /** Killing a list of names kills exactly the listed processes. */
  lemma {:induction false} KillEachEffect(t: Table, names: seq<string>)
    ensures var t' := KillEach(t, names);
      && t'.Keys == t.Keys
      && (forall n :: n in t && n in names ==> t'[n] == Kill(t[n]))
      && (forall n :: n in t && n !in names ==> t'[n] == t[n])
    decreases |names|
  {
    if names != [] {
      var t1 := KillIn(t, names[0]);
      KillEachEffect(t1, names[1..]);
      var t' := KillEach(t1, names[1..]);
      forall n | n in t && n in names
        ensures t'[n] == Kill(t[n])
      {
        if n != names[0] {
          assert n in names[1..];
        } else {
          KillEffect(t[n]);
        }
      }
    }
  }

  /**
   * What shutdown signals: every PTY in the list belongs to a listed process
   * that is running, and when no listed process is running nothing is signalled.
   */
  lemma {:induction false} RunningPtysAreRunning(t: Table, names: seq<string>)
    ensures forall x :: x in RunningPtys(t, names) ==>
      exists n :: n in t && n in names && t[n].status.Running? && t[n].pty == Some(x)
    ensures (forall n :: n in names && n in t ==> !t[n].status.Running?) ==> RunningPtys(t, names) == []
    decreases |names|
  {
    if names != [] {
      var init := names[..|names| - 1];
      RunningPtysAreRunning(t, init);
      assert forall n :: n in init ==> n in names;
      forall x | x in RunningPtys(t, names)
        ensures exists n :: n in t && n in names && t[n].status.Running? && t[n].pty == Some(x)
      {
        if x !in RunningPtys(t, init) {
          assert names[|names| - 1] in names;
        } else {
          var n :| n in t && n in init && t[n].status.Running? && t[n].pty == Some(x);
          assert n in names;
        }
      }
    }
  }

  /** Every listed process that is running and holds a PTY has that PTY signalled at shutdown. */
  lemma {:induction false} RunningPtysCoverRunning(t: Table, names: seq<string>)
    ensures forall n :: n in names && n in t && t[n].status.Running? && t[n].pty.Some? ==> t[n].pty.value in RunningPtys(t, names)
    decreases |names|
  {
    if names != [] {
      var init := names[..|names| - 1];
      RunningPtysCoverRunning(t, init);
      forall n | n in names && n in t && t[n].status.Running? && t[n].pty.Some?
        ensures t[n].pty.value in RunningPtys(t, names)
      {
        if n != names[|names| - 1] {
          assert names == init + [names[|names| - 1]];
          assert n in init;
        }
      }
    }
  }

  /** The record update after output: only the scroll offset moves, and only when following output. */
  function AfterOutput(p: ManagedProcess, lines: seq<Line>, cols: nat, rows: nat): (r: ManagedProcess)
    ensures r == p.(scrollOffset := r.scrollOffset)
    ensures !p.autoScroll ==> r == p
    ensures p.autoScroll ==> r.scrollOffset == AutoScrollOffset(lines, p.wrapEnabled, cols, rows)
  {
    if p.autoScroll then p.(scrollOffset := AutoScrollOffset(lines, p.wrapEnabled, cols, rows)) else p
  }

  // ---------------------------------------------------------------- auto-scroll

  /**
   * The display rows the supervisor scrolls to the bottom of: the content
   * lines, or in wrap mode with a non-zero width the rows they wrap to (at least 1).
   */
  function FollowedRows(lines: seq<Line>, wrapEnabled: bool, cols: nat): nat
  {
    var count := ContentLineCount(lines);
    if wrapEnabled && cols > 0 then Max(WrappedRowCount(lines[..Min(count, |lines|)], cols), 1)
    else count
  }

  /** The offset that shows the bottom of the content: total minus visible rows, or 0. */
  function AutoScrollOffset(lines: seq<Line>, wrapEnabled: bool, cols: nat, rows: nat): nat
  {
    SatSub(FollowedRows(lines, wrapEnabled, cols), rows)
  }

  /**
   * The auto-scroll offset shows the last rows: the window starting there
   * ends exactly at the content's end when the content is taller than the
   * view, and the offset is 0 otherwise.
   */
  lemma AutoScrollShowsBottom(lines: seq<Line>, wrapEnabled: bool, cols: nat, rows: nat)
    ensures var total := FollowedRows(lines, wrapEnabled, cols);
      var off := AutoScrollOffset(lines, wrapEnabled, cols, rows);
      && 1 <= total
      && (total > rows ==> off + rows == total)
      && (total <= rows ==> off == 0)
  {
  }
}
