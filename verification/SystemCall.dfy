// Starting and ending programs: execute, halt and restart_shell of student-distrib/system_call.c.
module SystemCall {
  import opened Bytes
  import opened CStrings
  import opened Descriptors
  import opened ProcessStacks
  import opened KernelTables
  import opened Kernel
  import FS = FileSystem
  import Command

  /** The name execute looks up and the argument bytes it stores, both padded with NULs. */
  function ProgramName(command: seq<Byte>): seq<Byte> {
    Padded(Cut(Command.FirstWord(command), 31), 32)
  }

  function ProgramArgs(command: seq<Byte>): seq<Byte> {
    Padded(Cut(Command.SecondWord(command), 127), 128)
  }

  lemma ProgramStrings(command: seq<Byte>)
    ensures Text(ProgramName(command)) == Cut(Command.FirstWord(command), 31) && NUL in ProgramName(command)
    ensures Text(ProgramArgs(command)) == Cut(Command.SecondWord(command), 127) && NUL in ProgramArgs(command)
    ensures |ProgramArgs(command)| == ARGS && Padded(Text(ProgramArgs(command)), ARGS) == ProgramArgs(command)
  {
    Command.ParsedArgument(command);
    Command.PaddedText(Cut(Command.FirstWord(command), 31), 32);
    Command.PaddedText(Cut(Command.SecondWord(command), 127), 128);
  }

  lemma IsElf(bytes: seq<Byte>)
    requires |bytes| == 4
    ensures SameText(bytes, ELF, 4) <==> bytes == ELF
  {
    TextIs(ELF, 4);
    TextIsPrefix(bytes);
    if SameText(bytes, ELF, 4) {
      assert |Cut(Text(bytes), 4)| == 4;
    }
  }

  /**
   * Compares the first four bytes of a file with the ELF magic. The four-byte buffer is uninitialised, so only a
   * file shorter than that, whose bytes start the magic, may go either way.
   */
  method CheckMagic(image: seq<Byte>, inode: nat) returns (ok: bool)
    requires FS.WellFormed(image)
    ensures Magic(image, inode) == ELF ==> ok
    ensures ok ==> Magic(image, inode) <= ELF
  {
    var buf := new Byte[4];
    ghost var magic := Magic(image, inode);
    MagicLength(image, inode);
    var r := FS.ReadData(image, inode, 0, buf, 0, 4);
    var c := StrNCmp(buf[..], ELF, 4);
    IsElf(buf[..]);
    assert buf[..][..|magic|] == magic;
    ok := c == 0;
  }

  method CheckProgram(k: Kernel, name: seq<Byte>) returns (ok: bool)
    requires FS.WellFormed(k.image) && NUL in name
    ensures ok ==> FS.Lookup(k.image, name).Some?
    ensures FS.Lookup(k.image, name).Some? ==>
              var magic := Magic(k.image, FS.InodeOf(FS.Entry(k.image, FS.Lookup(k.image, name).value)));
              (magic == ELF ==> ok) && (ok ==> magic <= ELF)
  {
    var entry := FS.ReadDentryByName(k.image, name);
    if entry.None? {
      return false;
    }
    ok := CheckMagic(k.image, FS.InodeOf(entry.value));
  }

  lemma MagicLength(image: seq<Byte>, inode: nat)
    requires FS.WellFormed(image)
    ensures |Magic(image, inode)| <= 4
  {
    if inode < FS.InodeCount(image) && 0 <= FS.FileSize(image, inode) {
      assert FS.Clipped(FS.FileSize(image, inode), 0, 4) <= 4;
    }
  }

  ghost predicate Loadable(image: seq<Byte>, command: Option<seq<Byte>>)
    requires FS.WellFormed(image)
  {
    command.Some? && FS.Lookup(image, ProgramName(command.value)).Some? &&
    Magic(image, FS.InodeOf(FS.Entry(image, FS.Lookup(image, ProgramName(command.value)).value))) == ELF
  }

  ghost predicate MayLoad(image: seq<Byte>, command: Option<seq<Byte>>)
    requires FS.WellFormed(image)
  {
    command.Some? && FS.Lookup(image, ProgramName(command.value)).Some? &&
    Magic(image, FS.InodeOf(FS.Entry(image, FS.Lookup(image, ProgramName(command.value)).value))) <= ELF
  }

  /** The part of execute that only reads: parse the command and check the program it names. */
  method Accept(k: Kernel, command: seq<Byte>) returns (ok: bool, request: seq<Byte>)
    requires FS.WellFormed(k.image) && NUL in command
    ensures request == ProgramArgs(command)
    ensures Loadable(k.image, Some(command)) ==> ok
    ensures ok ==> MayLoad(k.image, Some(command))
  {
    var fileName, requestBuf := new Byte[32](_ => NUL), new Byte[128](_ => NUL);
    Command.ParseCommand(command, fileName, requestBuf);
    ProgramStrings(command);
    request := requestBuf[..];
    ok := CheckProgram(k, fileName[..]);
  }

  /**
   * Either the program goes on top of the caller's terminal, on the lowest free pid, remembering the caller; or
   * -1 is returned and no table has changed.
   */
  method Execute(k: Kernel, command: Option<seq<Byte>>, caller: Context)
    returns (pid: int, ghost program: Option<seq<Byte>>)
    requires FS.WellFormed(k.image) && k.Valid() && Booted(k.sys) && (command.Some? ==> NUL in command.value)
    modifies k.Tables()
    ensures k.dirReadnum == old(k.dirReadnum)
    ensures k.Valid() && k.sys == ExecuteStep(old(k.sys), caller, program)
    ensures Loadable(k.image, command) ==> program.Some?
    ensures program.Some? ==> MayLoad(k.image, command) && program.value == ProgramArgs(command.value)
    ensures pid == if program.None? then -1 else FreePid(old(k.sys), 0)
    ensures pid == -1 ==> k.View() == old(k.View())
  {
    if command.None? {
      return -1, None;
    }
    var ok, request := Accept(k, command.value);
    if !ok {
      return -1, None;
    }
    ProgramStrings(command.value);
    program := Some(request);
    pid := LaunchForCaller(k, caller, request);
  }

  /** What the new process will be given as its argument: the command's second word, up to 127 bytes of it. */
  lemma ArgumentArrives(s: System, caller: Context, command: seq<Byte>)
    requires Ok(s) && Booted(s) && FreePid(s, 0) != -1
    ensures var r := ExecuteStep(s, caller, Some(ProgramArgs(command)));
            && r.running < |r.consoles| && r.consoles[r.running].stack != []
            && Top(r).args == ProgramArgs(command) && NUL in Top(r).args
            && Text(Top(r).args) == Cut(Command.SecondWord(command), 127)
            && (Text(Top(r).args) == [] <==> Command.SecondWord(command) == [])
  {
    ProgramStrings(command);
  }

  method LaunchForCaller(k: Kernel, caller: Context, request: seq<Byte>) returns (pid: int)
    requires k.Valid() && Booted(k.sys)
    requires |request| == ARGS && NUL in request && Padded(Text(request), ARGS) == request
    modifies k.Tables()
    ensures k.dirReadnum == old(k.dirReadnum)
    ensures k.Valid() && k.sys == ExecuteStep(old(k.sys), caller, Some(request))
    ensures pid == FreePid(old(k.sys), 0)
    ensures pid == -1 ==> k.View() == old(k.View())
  {
    hide AllRecorded, LiveRecorded, TerminalsRecorded, Current, ProcessOk, Distinct, BootOrder, LaunchTables, Text;
    ghost var before, s := k.View(), k.sys;
    ReadyToLaunch(before, s);
    pid := k.Launch(caller, request);
    if pid != -1 {
      LaunchRepresents(before, s, pid, caller, request);
      k.sys := ExecuteStep(s, caller, Some(request));
    }
  }

  function RestartedTables(q: KernelTables.Tables, pid: nat, caller: Context): KernelTables.Tables
    requires Sized(q) && pid < TERMINALS
  {
    q.(live := q.live[pid := 1],
       pcbs := q.pcbs[pid := Pcb(pid, pid, FRESH_TABLE, caller, NoArgs(), pid, q.pcbs[pid].own,
                                 q.pcbs[pid].rtcFreq, q.pcbs[pid].rtcCounter)],
       terminals := q.terminals[pid := q.terminals[pid].(curPid := pid)],
       currPid := pid, currParentPid := pid, processPage := ProcessEntry(pid), esp0 := KernelStack(pid),
       videoPage := VideoEntry(if pid == q.displayed then VIDEO else q.terminals[pid].vidBuf))
  }

  /** The shell of a terminal starts afresh in the pid it had; without a shell in the image nothing changes. */
  method RestartShell(k: Kernel, pid: nat, caller: Context) returns (ok: bool)
    requires FS.WellFormed(k.image) && k.Sizes() && pid < TERMINALS
    modifies k.Tables()
    ensures k.dirReadnum == old(k.dirReadnum)
    ensures k.sys == old(k.sys) && (Sound(k.image) ==> ok)
    ensures ok ==> FS.Lookup(k.image, SHELL).Some?
                   && Magic(k.image, FS.InodeOf(FS.Entry(k.image, FS.Lookup(k.image, SHELL).value))) <= ELF
    ensures k.View() == if ok then RestartedTables(old(k.View()), pid, caller) else old(k.View())
  {
    assert SHELL[5] == NUL;
    ok := CheckProgram(k, SHELL);
    if ok {
      Respawn(k, pid, caller);
    }
  }

  /** restart_shell once the shell has been found. */
  method Respawn(k: Kernel, pid: nat, caller: Context)
    requires k.Sizes() && pid < TERMINALS
    modifies k.Tables()
    ensures k.dirReadnum == old(k.dirReadnum)
    ensures k.sys == old(k.sys)
    ensures k.View() == RestartedTables(old(k.View()), pid, caller)
  {
    hide Text, VideoEntry, ProcessEntry, KernelStack;
    ghost var before := k.pcbArray[..];
    k.processArray[pid] := 1;
    k.currParentPid := pid;
    k.currPid := pid;
    k.terminals[pid] := k.terminals[pid].(curPid := pid);
    k.pcbArray[pid] := k.pcbArray[pid].(terminalNumber := pid);
    k.BindNewPcb(k.currPid, k.currParentPid);
    assert k.pcbArray[..] == before[pid := before[pid].(terminalNumber := pid, pid := pid, parentPid := pid)];
    var none := seq(ARGS, _ => NUL);
    TextIs(none, 0);
    k.SetUp(k.currPid, caller, none);
    assert Padded([], ARGS) == NoArgs();
    assert k.pcbArray[..] == before[pid := Pcb(pid, pid, FRESH_TABLE, caller, NoArgs(), pid, before[pid].own,
                                               before[pid].rtcFreq, before[pid].rtcCounter)];
  }

  /** Where control goes after a halt: into the context the matching execute saved, or into a fresh shell. */
  datatype Resumption = ReturnTo(context: Context, value: int) | FreshShell

  method Halt(k: Kernel, exitCode: Byte, restart: Context) returns (r: Resumption)
    requires FS.WellFormed(k.image) && k.Valid() && Booted(k.sys)
    requires |k.sys.consoles[k.sys.running].stack| == 1 ==> Sound(k.image)
    modifies k.Tables()
    ensures k.dirReadnum == old(k.dirReadnum)
    ensures k.Valid() && k.sys == HaltStep(old(k.sys), restart)
    ensures r == if |old(k.sys.consoles[k.sys.running].stack)| == 1 then FreshShell
                 else ReturnTo(Top(old(k.sys)).returnTo, exitCode as int)
  {
    hide ProcessOk, AllRecorded, LiveRecorded, TerminalsRecorded, Current, TableOk;
    ghost var before, s := k.View(), k.sys;
    ReadyToHalt(before, s);
    var saved := k.pcbArray[k.currPid].saved;
    k.ClosePcb(k.currPid);
    ghost var closed := k.View();
    assert ClosedFrom(before, closed);
    if k.currPid == k.currParentPid {
      var ok := RestartShell(k, k.currPid, restart);
      assert ok;
      RestartRepresents(before, s, closed, restart);
      r := FreshShell;
    } else {
      UncoverParent(k);
      UncoverRepresents(before, s, closed, restart);
      r := ReturnTo(saved, exitCode as int);
    }
    k.sys := HaltStep(s, restart);
  }

  /** The tables after close_pcb on the running process. */
  ghost predicate ClosedFrom(k: KernelTables.Tables, q: KernelTables.Tables)
    requires Sized(k) && 0 <= k.currPid < PROCESSES
  {
    && Sized(q)
    && q == k.(live := k.live[k.currPid := 0], pcbs := k.pcbs[k.currPid := q.pcbs[k.currPid]])
    && q.pcbs[k.currPid].own == k.pcbs[k.currPid].own
    && q.pcbs[k.currPid].rtcFreq == 0 && q.pcbs[k.currPid].rtcCounter == 0
  }

  function UncoveredTables(q: KernelTables.Tables): KernelTables.Tables
    requires Sized(q) && 0 <= q.currParentPid < PROCESSES && 0 <= q.pcbs[q.currParentPid].terminalNumber < TERMINALS
  {
    var parent := q.currParentPid;
    var t := q.pcbs[parent].terminalNumber;
    q.(terminals := q.terminals[t := q.terminals[t].(curPid := parent)],
       currPid := parent, currParentPid := q.pcbs[parent].parentPid,
       processPage := ProcessEntry(parent), esp0 := KernelStack(parent))
  }

  lemma UncoverRepresents(k: KernelTables.Tables, s: System, q: KernelTables.Tables, restart: Context)
    requires Represents(k, s) && Booted(s) && 0 <= k.currPid < PROCESSES && ClosedFrom(k, q)
    requires k.currPid != k.currParentPid
    ensures 0 <= q.currParentPid < PROCESSES && 0 <= q.pcbs[q.currParentPid].terminalNumber < TERMINALS
    ensures Represents(UncoveredTables(q), HaltStep(s, restart))
  {
    PoppedParent(k, s);
    PopRepresents(k, s, restart, UncoveredTables(q));
  }

  lemma ReadyToHalt(k: KernelTables.Tables, s: System)
    requires Represents(k, s) && Booted(s)
    ensures 0 <= k.currPid < PROCESSES && |k.pcbs[k.currPid].fds| == OPEN_FILES
    ensures k.pcbs[k.currPid].saved == Top(s).returnTo
    ensures |s.consoles[s.running].stack| == 1 <==> k.currPid == k.currParentPid
    ensures if k.currPid == k.currParentPid then k.currPid < TERMINALS
            else 0 <= k.currParentPid < PROCESSES && 0 <= k.pcbs[k.currParentPid].terminalNumber < TERMINALS
  {
    PoppedParent(k, s);
    assert At(s, s.running, |s.consoles[s.running].stack| - 1);
    if k.currPid == k.currParentPid {
      RootIsTerminal(k, s);
    }
  }

  /** The end of halt: the parent is current again, on its terminal, in its memory. */
  method UncoverParent(k: Kernel)
    requires k.Sizes() && 0 <= k.currParentPid < PROCESSES
    requires 0 <= k.pcbArray[k.currParentPid].terminalNumber < TERMINALS
    modifies k`currPid, k`currParentPid, k`processPage, k`esp0, k.terminals
    ensures k.View() == UncoveredTables(old(k.View()))
  {
    k.currPid := k.currParentPid;
    k.currParentPid := k.pcbArray[k.currPid].parentPid;
    var t := k.pcbArray[k.currPid].terminalNumber;
    k.terminals[t] := k.terminals[t].(curPid := k.currPid);
    k.MapProcess(0x80_0000 + k.currPid * 0x40_0000);
    k.esp0 := 0x80_0000 - k.currPid * 0x2000 - 4;
  }

  lemma RootIsTerminal(k: KernelTables.Tables, s: System)
    requires Represents(k, s) && Booted(s) && |s.consoles[s.running].stack| == 1
    ensures k.currPid == s.running < TERMINALS
  {
    assert At(s, s.running, 0);
    PoppedParent(k, s);
  }

  lemma RestartRepresents(k: KernelTables.Tables, s: System, q: KernelTables.Tables, restart: Context)
    requires Represents(k, s) && Booted(s) && 0 <= k.currPid < TERMINALS && ClosedFrom(k, q)
    requires k.currPid == k.currParentPid
    ensures Represents(RestartedTables(q, k.currPid, restart), HaltStep(s, restart))
  {
    PoppedParent(k, s);
    RootIsTerminal(k, s);
    FreshTableOk();
    assert TerminalRecorded(k, s, k.currPid);
    var r := RestartedTables(q, k.currPid, restart);
    assert r.live == k.live && r.terminals == k.terminals;
    SetTopRepresents(k, s, NewProcess(s.running, restart, NoArgs()), r);
  }

  // ---- vidmap ----

  const USER_START := 0x800_0000 // 128MB
  const USER_END := 0x840_0000   // 132MB

  /**
   * The user's pointer is refused, or the screen is mapped for the caller and its address, 160MB, stored through the
   * pointer; the tables stay right only in front.
   */
  method Vidmap(k: Kernel, screenStart: int) returns (r: int, stored: Option<int>)
    requires k.Valid() && Booted(k.sys)
    modifies k`videoPage
    ensures r == if USER_START <= screenStart < USER_END then 0 else -1
    ensures stored == if r == 0 then Some(0xA00_0000) else None
    ensures k.videoPage == if r == 0 then VideoEntry(VIDEO) else old(k.videoPage)
    ensures k.Valid() <==> r == -1 || k.activeTid == k.screens.curDisplayTid
  {
    if screenStart == 0 {
      return -1, None;
    }
    if screenStart < USER_START || screenStart >= USER_END {
      return -1, None;
    }
    ghost var before := k.View();
    VidmapIsRightOnlyInFront(before, k.sys);
    stored := Some(0xA00_0000);
    k.VidRemapping(VIDEO);
    assert k.View() == before.(videoPage := VideoEntry(VIDEO));
    r := 0;
  }
}
