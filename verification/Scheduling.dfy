// The timer interrupt of student-distrib/scheduling.c: it boots the three shells, then rotates the terminals.
module Scheduling {
  import opened Bytes
  import opened CStrings
  import opened Descriptors
  import opened ProcessStacks
  import opened KernelTables
  import opened Kernel
  import opened SystemCall
  import FS = FileSystem
  import Command

  lemma {:induction false} FindByText(image: seq<Byte>, a: seq<Byte>, b: seq<Byte>, i: nat)
    requires FS.WellFormed(image) && Text(a) == Text(b) && i <= FS.EntryCount(image)
    ensures FS.FindEntry(image, a, i) == FS.FindEntry(image, b, i)
    decreases FS.EntryCount(image) - i
  {
    if i < FS.EntryCount(image) {
      FindByText(image, a, b, i + 1);
    }
  }

  /** The command "shell" always loads, without arguments. */
  lemma ShellLoads(image: seq<Byte>)
    requires Sound(image)
    ensures NUL in SHELL && Loadable(image, Some(SHELL)) && ProgramArgs(SHELL) == NoArgs()
  {
    assert SHELL[5] == NUL;
    assert SHELL[0..5] == SHELL[..5];
    assert forall i :: 0 <= i < 5 ==> SHELL[i] != SPACE && SHELL[i] != NUL;
    Command.FirstWordIs(SHELL, 0, 5);
    assert SHELL[5..] == [NUL];
    Command.FirstWordIs([NUL], 0, 0);
    assert Command.SecondWord(SHELL) == [];
    ProgramStrings(SHELL);
    TextIs(SHELL, 5);
    FindByText(image, SHELL, ProgramName(SHELL), 0);
    assert Padded([], 128) == NoArgs();
  }

  /** execute("shell") from the timer interrupt during boot. */
  method ExecuteShell(k: Kernel, launch: Context) returns (pid: int)
    requires Sound(k.image) && k.Sizes() && 0 <= k.shellTid <= 2
    modifies k.Tables()
    ensures k.dirReadnum == old(k.dirReadnum)
    ensures k.sys == old(k.sys)
    ensures pid == FirstZero(old(k.processArray[..]), 0)
    ensures k.View() == if pid == -1 then old(k.View()) else LaunchTables(old(k.View()), pid, launch, NoArgs())
  {
    ShellLoads(k.image);
    ProgramStrings(SHELL);
    var ok, request := Accept(k, SHELL);
    assert ok;
    pid := k.Launch(launch, request);
  }

  /** The boot half of the handler: start the next shell, or move on to the next terminal. */
  method BootTick(k: Kernel, preempted: Context, launch: Context)
    requires Sound(k.image) && k.Valid() && !Booted(k.sys)
    modifies k.Tables()
    ensures k.dirReadnum == old(k.dirReadnum)
    ensures k.Valid() && k.sys == TickStep(old(k.sys), preempted, launch)
  {
    BootTerminal(k.View(), k.sys);
    if k.terminals[k.shellTid].curPid == -1 && k.shellTid == 0 {
      BootTickIs(k.sys, preempted, launch);
      FirstShell(k, launch);
    } else if k.terminals[k.shellTid].curPid == -1 {
      BootTickIs(k.sys, preempted, launch);
      NextShell(k, preempted, launch);
    } else {
      Advance(k, preempted, launch);
    }
  }

  method Advance(k: Kernel, ghost preempted: Context, ghost launch: Context)
    requires k.Valid() && !Booted(k.sys) && k.sys.consoles[k.sys.shellTid].stack != []
    modifies k.Tables()
    ensures k.dirReadnum == old(k.dirReadnum)
    ensures k.Valid() && k.sys == TickStep(old(k.sys), preempted, launch)
  {
    ghost var before, s := k.View(), k.sys;
    AdvanceRepresents(before, s);
    k.activeTid := k.shellTid;
    k.shellTid := k.shellTid + 1;
    assert k.View() == before.(activeTid := s.shellTid, shellTid := s.shellTid + 1);
    assert TickStep(s, preempted, launch) == s.(running := s.shellTid, shellTid := s.shellTid + 1);
    k.sys := TickStep(s, preempted, launch);
  }

  lemma BootTerminal(k: KernelTables.Tables, s: System)
    requires Represents(k, s) && !Booted(s)
    ensures 0 <= k.shellTid == s.shellTid < TERMINALS
    ensures k.terminals[k.shellTid].curPid == -1 <==> s.consoles[s.shellTid].stack == []
  {
    assert TerminalRecorded(k, s, s.shellTid);
    assert s.consoles[s.shellTid].stack != [] ==> At(s, s.shellTid, |s.consoles[s.shellTid].stack| - 1);
  }

  method FirstShell(k: Kernel, launch: Context)
    requires Sound(k.image) && k.Valid() && k.shellTid == 0 && !Booted(k.sys) && k.sys.consoles[0].stack == []
    modifies k.Tables()
    ensures k.dirReadnum == old(k.dirReadnum)
    ensures k.Valid() && k.sys == Push(old(k.sys), 0, NewProcess(0, launch, NoArgs()))
  {
    ghost var before, s := k.View(), k.sys;
    k.activeTid := k.shellTid;
    StartShell(k, before, s, launch);
  }

  method NextShell(k: Kernel, preempted: Context, launch: Context)
    requires Sound(k.image) && k.Valid() && k.shellTid > 0 && !Booted(k.sys)
             && k.sys.consoles[k.sys.shellTid].stack == []
    modifies k.Tables()
    ensures k.dirReadnum == old(k.dirReadnum)
    ensures var s := old(k.sys);
            k.Valid() && k.sys == Push(Park(s, s.running, preempted), s.shellTid,
              NewProcess(s.shellTid, launch, NoArgs()))
  {
    ghost var before, s := k.View(), k.sys;
    PreviousShell(before, s);
    k.activeTid := k.shellTid;
    k.pcbArray[k.shellTid - 1] := k.pcbArray[k.shellTid - 1].(own := preempted);
    ghost var q := k.View().(activeTid := s.running);
    ParkRepresents(before, s, s.running, preempted, q);
    StartShell(k, q, Park(s, s.running, preempted), launch);
  }

  lemma BootTickIs(s: System, preempted: Context, launch: Context)
    requires Ok(s) && !Booted(s) && s.consoles[s.shellTid].stack == []
    ensures TickStep(s, preempted, launch) ==
              Push(if s.shellTid == 0 then s else Park(s, s.running, preempted), s.shellTid,
                   NewProcess(s.shellTid, launch, NoArgs()))
  {
    BootPid(s);
  }

  /** While booting, the shell started last is the root of the running terminal, which is the one before. */
  lemma PreviousShell(k: KernelTables.Tables, s: System)
    requires Represents(k, s) && !Booted(s) && s.consoles[s.shellTid].stack == [] && s.shellTid > 0
    ensures s.running == s.shellTid - 1 && s.consoles[s.running].stack != []
    ensures k.terminals[s.running].curPid == s.shellTid - 1
  {
    assert TerminalRecorded(k, s, s.running) && At(s, s.running, 0);
  }

  method StartShell(k: Kernel, ghost q: KernelTables.Tables, ghost s: System, launch: Context)
    requires Sound(k.image) && k.Sizes() && Represents(q, s) && !Booted(s) && s.consoles[s.shellTid].stack == []
    requires s.shellTid > 0 ==> s.consoles[s.running].parked.Some?
    requires k.View() == q.(activeTid := s.shellTid)
    modifies k.Tables()
    ensures k.dirReadnum == old(k.dirReadnum)
    ensures k.Valid() && k.sys == Push(s, s.shellTid, NewProcess(s.shellTid, launch, NoArgs()))
  {
    hide AllRecorded, LiveRecorded, TerminalsRecorded, Current, ProcessOk;
    BootRepresents(q, s, launch);
    FreePidIsFirstZero(q, s);
    var pid := ExecuteShell(k, launch);
    k.sys := Push(s, s.shellTid, NewProcess(s.shellTid, launch, NoArgs()));
  }

  method Reschedule(k: Kernel) returns (pid: int)
    requires k.Sizes() && 0 <= k.activeTid < TERMINALS
    modifies k`nextSchedTid
    ensures k.nextSchedTid == NextTid(k.activeTid)
    ensures pid == k.terminals[k.nextSchedTid].curPid
  {
    k.nextSchedTid := (k.activeTid + 1) % 3;
    pid := k.terminals[k.nextSchedTid].curPid;
  }

  function SwitchedTables(q: KernelTables.Tables, t: nat, preempted: Context): KernelTables.Tables
    requires Sized(q) && t < TERMINALS && 0 <= q.currPid < PROCESSES && 0 <= q.terminals[t].curPid < PROCESSES
  {
    var pid := q.terminals[t].curPid;
    q.(pcbs := q.pcbs[q.currPid := q.pcbs[q.currPid].(own := preempted)],
       activeTid := t, currPid := pid, currParentPid := q.pcbs[pid].parentPid,
       processPage := ProcessEntry(pid), esp0 := KernelStack(pid),
       videoPage := VideoEntry(if t == q.displayed then VIDEO else q.terminals[t].vidBuf))
  }

  /** process_switch once booted: save the running context, load the one saved for the next terminal's process. */
  method ProcessSwitch(k: Kernel, nextPid: int, preempted: Context) returns (loaded: Context)
    requires k.Sizes() && 0 <= k.nextSchedTid < TERMINALS && nextPid == k.terminals[k.nextSchedTid].curPid
    requires 0 <= k.currPid < PROCESSES && 0 <= nextPid < PROCESSES
    modifies k`currPid, k`currParentPid, k`activeTid, k`processPage, k`videoPage, k`esp0, k.pcbArray
    ensures k.View() == SwitchedTables(old(k.View()), k.nextSchedTid, preempted)
    ensures loaded == k.pcbArray[nextPid].own
  {
    var next := k.terminals[k.nextSchedTid];
    var cur := k.currPid;
    if k.screens.curDisplayTid == k.nextSchedTid {
      k.VidRemapping(VIDEO);
    } else {
      k.VidRemapping(next.vidBuf);
    }
    k.MapProcess(0x80_0000 + 0x40_0000 * nextPid);
    k.currPid := nextPid;
    k.currParentPid := k.pcbArray[nextPid].parentPid;
    k.esp0 := 0x80_0000 - 0x2000 * k.currPid - 4;
    k.activeTid := k.nextSchedTid;
    k.pcbArray[cur] := k.pcbArray[cur].(own := preempted);
    loaded := k.pcbArray[nextPid].own;
  }

  lemma ReadyToSwitch(k: KernelTables.Tables, s: System)
    requires Represents(k, s) && Booted(s)
    ensures 0 <= k.currPid < PROCESSES && k.currPid == k.terminals[s.running].curPid
    ensures 0 <= k.terminals[Next(s)].curPid < PROCESSES
    ensures 0 <= k.activeTid < TERMINALS && NextTid(k.activeTid) == Next(s)
  {
    var t, n := s.running, Next(s);
    PoppedParent(k, s);
    assert TerminalRecorded(k, s, t) && TerminalRecorded(k, s, n);
    assert At(s, n, |s.consoles[n].stack| - 1);
  }

  lemma SwitchRepresents(k: KernelTables.Tables, s: System, preempted: Context, launch: Context)
    requires Represents(k, s) && Booted(s)
    requires 0 <= k.currPid < PROCESSES && k.currPid == k.terminals[s.running].curPid
    requires 0 <= k.terminals[Next(s)].curPid < PROCESSES
    ensures var q := SwitchedTables(k, Next(s), preempted);
            && Represents(q, TickStep(s, preempted, launch))
            && s.consoles[Next(s)].parked == Some(q.pcbs[k.terminals[Next(s)].curPid].own)
  {
    var t, n := s.running, Next(s);
    var parked := k.(pcbs := k.pcbs[k.currPid := k.pcbs[k.currPid].(own := preempted)]);
    ParkRepresents(k, s, t, preempted, parked);
    AllParked(s, preempted);
    BufferRecorded(k, s, n);
    ResumeRepresents(parked, Park(s, t, preempted), n, SwitchedTables(k, n, preempted));
    assert TickStep(s, preempted, launch) == Resume(Park(s, t, preempted), n);
  }

  lemma BufferRecorded(k: KernelTables.Tables, s: System, t: nat)
    requires Represents(k, s) && t < TERMINALS
    ensures k.terminals[t].vidBuf == BufferOf(t)
  {
    assert TerminalRecorded(k, s, t);
  }

  lemma AllParked(s: System, preempted: Context)
    requires Ok(s) && Booted(s)
    ensures forall u :: 0 <= u < TERMINALS ==> Park(s, s.running, preempted).consoles[u].parked.Some?
  {
    assert forall u :: 0 <= u < TERMINALS ==> At(s, u, 0);
  }

  method Rotate(k: Kernel, preempted: Context) returns (loaded: Context)
    requires k.Sizes() && 0 <= k.activeTid < TERMINALS
    requires 0 <= k.currPid < PROCESSES && 0 <= k.terminals[NextTid(k.activeTid)].curPid < PROCESSES
    modifies k, k.pcbArray
    ensures k.dirReadnum == old(k.dirReadnum)
    ensures k.sys == old(k.sys)
    ensures var q := SwitchedTables(old(k.View()), NextTid(old(k.activeTid)), preempted);
            k.View() == q && loaded == q.pcbs[q.currPid].own
  {
    var next := Reschedule(k);
    loaded := ProcessSwitch(k, next, preempted);
  }

  method SwitchTick(k: Kernel, preempted: Context, ghost launch: Context) returns (loaded: Context)
    requires k.Valid() && Booted(k.sys)
    modifies k.Tables()
    ensures k.dirReadnum == old(k.dirReadnum)
    ensures k.Valid() && k.sys == TickStep(old(k.sys), preempted, launch)
    ensures old(k.sys).consoles[Next(old(k.sys))].parked == Some(loaded)
  {
    ghost var before, s := k.View(), k.sys;
    ReadyToSwitch(before, s);
    SwitchRepresents(before, s, preempted, launch);
    loaded := Rotate(k, preempted);
    k.sys := TickStep(s, preempted, launch);
  }

  /** The timer interrupt. Once booted it loads the context its terminal was parked with. */
  method PitHandler(k: Kernel, preempted: Context, launch: Context) returns (loaded: Option<Context>)
    requires k.Valid() && (!Booted(k.sys) ==> Sound(k.image))
    modifies k.Tables()
    ensures k.dirReadnum == old(k.dirReadnum)
    ensures k.Valid() && k.sys == TickStep(old(k.sys), preempted, launch)
    ensures loaded == if Booted(old(k.sys)) then old(k.sys).consoles[Next(old(k.sys))].parked else None
  {
    if k.shellTid <= 2 {
      BootTick(k, preempted, launch);
      loaded := None;
    } else {
      var context := SwitchTick(k, preempted, launch);
      loaded := Some(context);
    }
  }
}
