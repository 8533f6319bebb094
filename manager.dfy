/**
 * The process manager: a table of managed processes, each with its terminal
 * buffer, plus the order in which they were added. Every method is proved
 * against the table functions of `Supervisor` (on the processes) and against
 * `Emulator` (on the screens of their buffers), so the lemmas proved there
 * hold of the manager's state.
 *
 * Spawning, writing to, resizing and signalling a PTY are outside the model:
 * the outcome of a spawn is a parameter, and what would be written or
 * signalled is returned.
 */
module Manager {
  import opened Wrappers
  import opened Config
  import opened Emulator
  import opened Terminal
  import opened Supervisor

  /** No two names share a buffer. */
  predicate BuffersDistinct(ps: Table)
  {
    forall n, m :: n in ps && m in ps && n != m ==> ps[n].buffer != ps[m].buffer
  }

  /** The order lists exactly the names in the table, possibly some more than once. */
  predicate Listed(ps: Table, order: seq<string>)
  {
    && (forall i :: 0 <= i < |order| ==> order[i] in ps)
    && (forall n :: n in ps ==> n in order)
  }

  /** `cur` is `orig` with exactly the processes named in `done` force-killed. */
  predicate FinishedUpTo(cur: Table, orig: Table, done: seq<string>)
  {
    && cur.Keys == orig.Keys
    && forall n :: n in cur ==> cur[n] == if n in done then Finish(orig[n]) else orig[n]
  }

  /** Force-killing one more name extends the finished prefix; a repeated name changes nothing. */
  lemma FinishedStep(cur: Table, orig: Table, done: seq<string>, name: string)
    requires FinishedUpTo(cur, orig, done) && name in cur
    ensures FinishedUpTo(cur[name := Finish(cur[name])], orig, done + [name])
  {
    var next := cur[name := Finish(cur[name])];
    forall n | n in next
      ensures next[n] == if n in done + [name] then Finish(orig[n]) else orig[n]
    {
      assert n in done + [name] <==> n in done || n == name;
    }
  }

  /** Once every listed name is done, the table is the force-killed original. */
  lemma FinishedAll(cur: Table, orig: Table, names: seq<string>)
    requires FinishedUpTo(cur, orig, names) && Listed(orig, names)
    ensures cur == FinishAll(orig)
  {
  }

  /** The name at a position of the order, if the order is that long. */
  function NameAt(order: seq<string>, index: nat): (r: Option<string>)
    ensures r.Some? <==> index < |order|
    ensures r.Some? ==> r.value == order[index]
  {
    if index < |order| then Some(order[index]) else None
  }

  /** Two tables with the same names and the same buffer under each name. */
  predicate SameBuffers(ps: Table, qs: Table)
  {
    ps.Keys == qs.Keys && forall n :: n in ps ==> ps[n].buffer == qs[n].buffer
  }

  /** Resize each of a set of buffers to the same size. */
  method ResizeBuffers(buffers: set<TerminalBuffer>, cols: nat, rows: nat)
    requires forall b :: b in buffers ==> b.Valid()
    modifies buffers
    ensures forall b :: b in buffers ==> b.Valid() && b.Snapshot() == old(b.Snapshot()).(cols := cols, rows := rows)
  {
    var todo := buffers;
    while todo != {}
      invariant todo <= buffers
      invariant forall b :: b in buffers ==> b.Valid()
      invariant forall b :: b in buffers ==>
        b.Snapshot() == if b in todo then old(b.Snapshot()) else old(b.Snapshot()).(cols := cols, rows := rows)
      decreases |todo|
    {
      var buffer :| buffer in todo;
      buffer.Resize(cols, rows);
      todo := todo - {buffer};
    }
  }

  /** Feed output to a buffer, then drain the replies it queued. */
  method Feed(buffer: TerminalBuffer, data: seq<Action>) returns (responses: seq<seq<Byte>>)
    requires buffer.Valid()
    modifies buffer
    ensures buffer.Valid()
    ensures var s1 := Run(old(buffer.Snapshot()), data);
      buffer.Snapshot() == s1.(pending := []) && responses == s1.pending
  {
    buffer.Write(data);
    responses := buffer.TakePendingResponses();
  }

  /**
   * The offset that shows the bottom of a buffer's content at a size: the
   * content's display rows (wrapped at `cols` when wrapping is on and
   * `cols` is positive, at least one) minus the visible rows, or 0.
   */
  method FollowOffset(buffer: TerminalBuffer, wrapEnabled: bool, cols: nat, rows: nat) returns (offset: nat)
    requires buffer.Valid()
    ensures offset == AutoScrollOffset(buffer.lines, wrapEnabled, cols, rows)
  {
    var lines := buffer.lines;
    var contentCount := buffer.ContentLineCount();
    var total: nat;
    if wrapEnabled && cols > 0 {
      total := Max(WrappedRowCount(lines[..contentCount], cols), 1);
    } else {
      total := contentCount;
    }
    if total > rows {
      offset := total - rows;
    } else {
      offset := 0;
    }
  }

  class ProcessManager {
    var processes: Table
    var order: seq<string>
    var cols: U16
    var rows: U16
    const timeout: nat

    /** Every buffer the manager has created; it includes each process's buffer. */
    ghost var Repr: set<TerminalBuffer>

    /**
     * Every process's buffer is one the manager created and keeps the
     * emulator's bounds, no two names share one, and the order lists
     * exactly the names in the table.
     */
    ghost predicate Valid()
      reads this, Repr
    {
      && (forall n :: n in processes ==> processes[n].buffer in Repr)
      && (forall b :: b in Repr ==> b.Valid())
      && BuffersDistinct(processes)
      && Listed(processes, order)
    }

    /** The names, the buffers, the order and the size are as they were; only process fields may differ. */
    twostate predicate Unmoved()
      reads this
    {
      SameBuffers(processes, old(processes)) && order == old(order) && cols == old(cols) && rows == old(rows)
        && Repr == old(Repr)
    }

    constructor (cols: U16, rows: U16, timeout: nat)
      ensures Valid()
      ensures processes == map[] && order == []
      ensures this.cols == cols && this.rows == rows && this.timeout == timeout
    {
      processes := map[];
      order := [];
      Repr := {};
      this.cols := cols;
      this.rows := rows;
      this.timeout := timeout;
    }

    /**
     * Replace the fields of a known process through a mutable reference to
     * it, keeping its buffer.
     */
    method SetProcess(name: string, p: ManagedProcess)
      requires Valid() && name in processes && p.buffer == processes[name].buffer
      modifies this
      ensures Valid() && Unmoved()
      ensures processes == old(processes)[name := p]
    {
      processes := processes[name := p];
      assert forall n :: n in processes ==> processes[n].buffer == old(processes)[n].buffer;
    }

    /**
     * Register a process under its configured name: a fresh process on a
     * fresh buffer at the current size replaces any process of that name,
     * and the name is appended to the order even when it is already there.
     */
    method AddProcess(config: ProcessConfig)
      requires Valid()
      modifies this
      ensures Valid()
      ensures order == old(order) + [config.name]
      ensures config.name in processes && fresh(processes[config.name].buffer)
      ensures processes == old(processes)[config.name := Fresh(config, processes[config.name].buffer)]
      ensures processes[config.name].buffer.Snapshot() == Emulator.New(cols, rows)
      ensures cols == old(cols) && rows == old(rows)
    {
      var buffer := new TerminalBuffer(cols as nat, rows as nat);
      var process := Fresh(config, buffer);
      processes := processes[config.name := process];
      order := order + [config.name];
      Repr := Repr + {buffer};
    }

    /**
     * Start a process: an unknown name is an error and changes nothing;
     * otherwise the generation moves on first, and only a successful spawn
     * makes the process Running on the new PTY.
     */
    method StartProcess(name: string, spawn: Spawn) returns (r: Result<()>)
      requires Valid()
      modifies this
      ensures Valid() && Unmoved()
      ensures (processes, r) == StartIn(old(processes), name, spawn)
    {
      if name !in processes {
        return Err("Process not found: " + name);
      }
      var process := processes[name];
      process := process.(generation := process.generation + 1);
      match spawn {
        case SpawnFailed(reason) =>
          SetProcess(name, process);
          r := Err(reason);
        case Spawned(pty) =>
          process := process.(pty := Some(pty), status := Running);
          SetProcess(name, process);
          r := Ok(());
      }
    }

    /** Start every process in order, stopping at the first failure; `spawns[i]` is the outcome for `order[i]`. */
    method StartAll(spawns: seq<Spawn>) returns (r: Result<()>)
      requires Valid() && |spawns| == |order|
      modifies this
      ensures Valid() && Unmoved()
      ensures (processes, r) == StartEach(old(processes), old(order), spawns)
    {
      var names := order;
      for i := 0 to |names|
        invariant Valid() && Unmoved()
        invariant StartEach(old(processes), names, spawns) == StartEach(processes, names[i..], spawns[i..])
      {
        assert names[i..][1..] == names[i + 1..] && spawns[i..][1..] == spawns[i + 1..];
        r := StartProcess(names[i], spawns[i]);
        if r.Err? {
          return;
        }
      }
      r := Ok(());
    }

    /** Kill, then start again; the start's outcome is the result. */
    method RestartProcess(name: string, spawn: Spawn) returns (r: Result<()>)
      requires Valid()
      modifies this
      ensures Valid() && Unmoved()
      ensures (processes, r) == StartIn(KillIn(old(processes), name), name, spawn)
    {
      r := KillProcess(name);
      r := StartProcess(name, spawn);
    }

    /** Kill every process, then start every process in order, stopping at the first failure. */
    method RestartAll(spawns: seq<Spawn>) returns (r: Result<()>)
      requires Valid() && |spawns| == |order|
      modifies this
      ensures Valid() && Unmoved()
      ensures (processes, r) == StartEach(KillEach(old(processes), old(order)), old(order), spawns)
    {
      var names := order;
      for i := 0 to |names|
        invariant Valid() && Unmoved()
        invariant KillEach(old(processes), names) == KillEach(processes, names[i..])
      {
        assert names[i..][1..] == names[i + 1..];
        var _ := KillProcess(names[i]);
      }
      r := StartAll(spawns);
    }

    /** Always Ok: an unknown name changes nothing, a known one ends Stopped without a PTY. */
    method KillProcess(name: string) returns (r: Result<()>)
      requires Valid()
      modifies this
      ensures Valid() && Unmoved()
      ensures r == Ok(())
      ensures processes == KillIn(old(processes), name)
    {
      if name in processes {
        var process := processes[name];
        SetProcess(name, process.(pty := None, status := Stopped));
      }
      return Ok(());
    }

    /**
     * Forward input to a process: when the name is known and holds a PTY the
     * bytes go to that PTY and the write's own outcome is the result;
     * otherwise nothing is written and the result is Ok.
     */
    method WriteToProcess(name: string, data: seq<Byte>, ptyWrite: Result<()>)
      returns (r: Result<()>, written: Option<(Pty, seq<Byte>)>)
      ensures name in processes && processes[name].pty.Some? ==>
        written == Some((processes[name].pty.value, data)) && r == ptyWrite
      ensures !(name in processes && processes[name].pty.Some?) ==> written == None && r == Ok(())
    {
      r, written := Ok(()), None;
      if name in processes {
        var process := processes[name];
        if process.pty.Some? {
          written := Some((process.pty.value, data));
          r := ptyWrite;
        }
      }
    }

    /** Record the new size and resize every buffer; the processes' fields are untouched. */
    method Resize(cols: U16, rows: U16)
      requires Valid()
      modifies this, Repr
      ensures Valid()
      ensures this.cols == cols && this.rows == rows
      ensures processes == old(processes) && order == old(order)
      ensures forall n :: n in processes ==>
        processes[n].buffer.Snapshot() == old(processes[n].buffer.Snapshot()).(cols := cols, rows := rows)
    {
      this.cols := cols;
      this.rows := rows;
      var buffers := set n | n in processes :: processes[n].buffer;
      ResizeBuffers(buffers, cols as nat, rows as nat);
    }

    /**
     * Output read from a process. Output of a stale generation or for an
     * unknown name changes nothing. Otherwise it is fed to the buffer, the
     * replies the buffer queued are drained and returned for sending (when
     * the process holds a PTY), and a process following output is scrolled
     * to the bottom of its content at the manager's size.
     */
    method HandleOutput(name: string, gen: nat, data: seq<Action>) returns (sent: seq<seq<Byte>>)
      requires Valid()
      modifies this, Repr
      ensures Valid() && Unmoved()
      ensures forall n :: n in processes && n != name ==>
        processes[n].buffer.Snapshot() == old(processes[n].buffer.Snapshot())
      ensures Stale(old(processes), name, gen) ==>
        processes == old(processes) && unchanged(Repr) && sent == []
      ensures !Stale(old(processes), name, gen) ==>
        var p := old(processes)[name];
        var s1 := Run(old(p.buffer.Snapshot()), data);
        && p.buffer.Snapshot() == s1.(pending := [])
        && processes == old(processes)[name := AfterOutput(p, s1.lines, cols, rows)]
        && sent == (if p.pty.Some? then s1.pending else [])
    {
      sent := [];
      if name !in processes {
        return;
      }
      var process := processes[name];
      if process.generation != gen {
        return;
      }
      sent := Deliver(name, data);
      if process.autoScroll {
        var offset := FollowOffset(process.buffer, process.wrapEnabled, cols as nat, rows as nat);
        SetProcess(name, process.(scrollOffset := offset));
      }
    }

    /** Feed output to a known process's buffer and collect the replies to send back when it holds a PTY. */
    method Deliver(name: string, data: seq<Action>) returns (sent: seq<seq<Byte>>)
      requires Valid() && name in processes
      modifies Repr
      ensures Valid()
      ensures forall n :: n in processes && n != name ==>
        processes[n].buffer.Snapshot() == old(processes[n].buffer.Snapshot())
      ensures var p := processes[name];
        var s1 := Run(old(p.buffer.Snapshot()), data);
        && p.buffer.Snapshot() == s1.(pending := [])
        && sent == (if p.pty.Some? then s1.pending else [])
    {
      var process := processes[name];
      var responses := Feed(process.buffer, data);
      assert forall n :: n in processes && n != name ==> processes[n].buffer != process.buffer;
      sent := [];
      if process.pty.Some? {
        for i := 0 to |responses|
          invariant sent == responses[..i]
        {
          sent := sent + [responses[i]];
        }
        assert responses[..|responses|] == responses;
      }
    }

    /** The reader saw end of output: a live process becomes Exited (0 without a code). */
    method HandleExit(name: string, gen: nat, code: Option<I32>)
      requires Valid()
      modifies this
      ensures Valid() && Unmoved()
      ensures processes == ExitIn(old(processes), name, gen, code)
    {
      if name in processes {
        var process := processes[name];
        if process.generation != gen {
          return;
        }
        var status := match code
          case Some(c) => Exited(c)
          case None => Exited(0);
        SetProcess(name, process.(pty := None, status := status));
      }
    }

    /** Reading failed: a live process becomes Failed with the message. */
    method HandleError(name: string, gen: nat, message: string)
      requires Valid()
      modifies this
      ensures Valid() && Unmoved()
      ensures processes == FailIn(old(processes), name, gen, message)
    {
      if name in processes {
        var process := processes[name];
        if process.generation != gen {
          return;
        }
        SetProcess(name, process.(pty := None, status := Failed(message)));
      }
    }

    /**
     * Graceful shutdown's first pass: the PTY of every running process, in
     * order, is to be sent a termination request; no status changes.
     */
    method BeginShutdown() returns (terminated: seq<Pty>)
      ensures terminated == RunningPtys(processes, order)
    {
      terminated := [];
      var names := order;
      for i := 0 to |names|
        invariant terminated == RunningPtys(processes, names[..i])
      {
        assert names[..i + 1][..i] == names[..i];
        if names[i] in processes {
          var process := processes[names[i]];
          if process.status.Running? && process.pty.Some? {
            terminated := terminated + [process.pty.value];
          }
        }
      }
      assert names[..|names|] == names;
    }

    /** The force-kill pass: every running process, in order, becomes Stopped without a PTY. */
    method FinishShutdown()
      requires Valid()
      modifies this
      ensures Valid() && Unmoved()
      ensures processes == FinishAll(old(processes))
    {
      var names := order;
      for i := 0 to |names|
        invariant Valid() && Unmoved()
        invariant FinishedUpTo(processes, old(processes), names[..i])
      {
        FinishedStep(processes, old(processes), names[..i], names[i]);
        assert names[..i + 1] == names[..i] + [names[i]];
        FinishOne(names[i]);
      }
      assert names[..|names|] == names;
      FinishedAll(processes, old(processes), names);
    }

    /** Force-kill one process: Stopped without a PTY when it was running, else as it was. */
    method FinishOne(name: string)
      requires Valid() && name in processes
      modifies this
      ensures Valid() && Unmoved()
      ensures processes == old(processes)[name := Finish(old(processes)[name])]
    {
      var process := processes[name];
      if process.status.Running? {
        SetProcess(name, process.(pty := None, status := Stopped));
      } else {
        assert processes == processes[name := process];
      }
    }

    /** The number of processes that are not running; together with the running ones they are all. */
    function StoppedCount(): (count: nat)
      reads this
      ensures count + |RunningNames(processes)| == |processes|
    {
      CountsAddUp(processes);
      Supervisor.StoppedCount(processes)
    }

    /** Whether some process is running: exactly when not every process is stopped. */
    function AnyRunning(): (b: bool)
      reads this
      ensures b <==> StoppedCount() < |processes|
    {
      CountsAddUp(processes);
      Supervisor.AnyRunning(processes)
    }
  }
}
