// The kernel's global variables, and the process calls of student-distrib/pcb.c, system_call.c and scheduling.c.
// Each call runs with interrupts off and is one step of the machine.
module Kernel {
  import opened Bytes
  import opened CStrings
  import opened Descriptors
  import opened ProcessStacks
  import opened KernelTables
  import FS = FileSystem
  import S = Screens

  const ELF: seq<Byte> := [0x7F, 0x45, 0x4C, 0x46]
  const SHELL: seq<Byte> := [0x73, 0x68, 0x65, 0x6C, 0x6C, 0x00]

  /** The bytes of the file that execute compares with the ELF magic number. */
  ghost function Magic(image: seq<Byte>, inode: nat): seq<Byte>
    requires FS.WellFormed(image)
  {
    FS.ReadBytes(image, inode, 0, 4)
  }

  ghost predicate FilesReadable(image: seq<Byte>) {
    FS.WellFormed(image) && forall n :: 0 <= n < FS.InodeCount(image) ==> FS.BlocksValid(image, n)
  }

  /** The file system is well formed and holds a shell, as booting and restarting shells need. */
  ghost predicate Sound(image: seq<Byte>) {
    && FS.WellFormed(image)
    && FS.Lookup(image, SHELL).Some?
    && Magic(image, FS.InodeOf(FS.Entry(image, FS.Lookup(image, SHELL).value))) == ELF
  }

  function InitialPcb(pid: int): Pcb {
    var stack := 0x80_0000 - 0x2000 * pid + 1;
    Pcb(0, 0, FRESH_TABLE, Context(stack, stack), [], 0, Context(0, 0), 0, 0)
  }

  class Kernel {
    const image: seq<Byte>
    const screens: S.Screens
    const processArray: array<int>
    const pcbArray: array<Pcb>
    const terminals: array<Terminal>
    var currPid: int
    var currParentPid: int
    var activeTid: int
    var nextSchedTid: int
    var shellTid: int
    var processPage: int  // page directory entry 32
    var videoPage: int    // entry 0 of the video page table
    var esp0: int         // the kernel stack pointer in the task state segment
    var dirReadnum: nat   // the directory entry the next directory read returns
    ghost var sys: System

    ghost function Tables(): set<object> {
      {this, processArray, pcbArray, terminals}
    }

    ghost function View(): KernelTables.Tables
      reads this, processArray, pcbArray, terminals, screens
    {
      KernelTables.Tables(processArray[..], pcbArray[..], terminals[..], currPid, currParentPid, activeTid, shellTid,
                          screens.curDisplayTid, processPage, videoPage, esp0)
    }

    ghost predicate Sizes() {
      processArray.Length == PROCESSES && pcbArray.Length == PROCESSES && terminals.Length == TERMINALS
    }

    ghost predicate Valid()
      reads this, processArray, pcbArray, terminals, screens
    {
      Sizes() && Represents(View(), sys)
    }

    /** The tables as init_pcb and init_terminal leave them. */
    constructor (image: seq<Byte>, screens: S.Screens)
      requires screens.curDisplayTid == 0
      ensures Valid() && sys == PowerOn() && this.image == image && this.screens == screens
      ensures fresh(Tables()) && dirReadnum == 0
    {
      this.image := image;
      this.screens := screens;
      processArray := new int[6](_ => 0);
      pcbArray := new Pcb[6](InitialPcb);
      terminals := new Terminal[3](t => Terminal(-1, BufferOf(t)));
      currPid, currParentPid, activeTid, shellTid, dirReadnum := 0, 0, 0, 0, 0;
      sys := PowerOn();
      new;
      PowerOnRepresents(View());
    }

    // ---- pcb.c ----

    method CreateProcess() returns (pid: int)
      requires Sizes()
      modifies processArray
      ensures pid == FirstZero(old(processArray[..]), 0)
      ensures processArray[..] == if pid == -1 then old(processArray[..]) else old(processArray[..])[pid := 1]
    {
      for i := 0 to PROCESSES
        invariant processArray[..] == old(processArray[..])
        invariant FirstZero(processArray[..], i) == FirstZero(processArray[..], 0)
      {
        if processArray[i] == 0 {
          processArray[i] := 1;
          return i;
        }
      }
      return -1;
    }

    method BindNewPcb(pid: nat, parent: int)
      requires Sizes() && pid < PROCESSES
      modifies pcbArray
      ensures pcbArray[..] == old(pcbArray[..])[pid := old(pcbArray[pid]).(pid := pid,
                                parentPid := if pid == 0 then pid else parent)]
    {
      pcbArray[pid] := pcbArray[pid].(pid := pid);
      if pid == 0 {
        pcbArray[pid] := pcbArray[pid].(parentPid := pid);
      } else {
        pcbArray[pid] := pcbArray[pid].(parentPid := parent);
      }
    }

    /** A closed table: no slot in use, no driver named; inode numbers and positions are left behind. */
    function Closed(fds: seq<Descriptor>): (r: seq<Descriptor>)
      ensures |r| == |fds|
    {
      seq(|fds|, i requires 0 <= i < |fds| =>
        if fds[i].inUse then fds[i].(driver := None, inUse := false) else fds[i])
    }

    method ClosePcb(pid: nat)
      requires Sizes() && pid < PROCESSES && |pcbArray[pid].fds| == OPEN_FILES
      modifies processArray, pcbArray
      ensures processArray[..] == old(processArray[..])[pid := 0]
      ensures pcbArray[..] == old(pcbArray[..])[pid := old(pcbArray[pid]).(pid := 0, parentPid := 0,
                                terminalNumber := 255, rtcFreq := 0, rtcCounter := 0,
                                fds := Closed(old(pcbArray[pid].fds)))]
    {
      processArray[pid] := 0;
      pcbArray[pid] := pcbArray[pid].(pid := 0, parentPid := 0, terminalNumber := 255);
      pcbArray[pid] := pcbArray[pid].(rtcFreq := 0, rtcCounter := 0);
      ghost var fds := pcbArray[pid].fds;
      for i := 0 to OPEN_FILES
        invariant processArray[..] == old(processArray[..])[pid := 0]
        invariant pcbArray[..] == old(pcbArray[..])[pid := old(pcbArray[pid]).(pid := 0, parentPid := 0,
                                    terminalNumber := 255, rtcFreq := 0, rtcCounter := 0, fds := pcbArray[pid].fds)]
        invariant |pcbArray[pid].fds| == OPEN_FILES
        invariant forall j :: 0 <= j < OPEN_FILES ==> pcbArray[pid].fds[j] == if j < i then Closed(fds)[j] else fds[j]
      {
        var d := pcbArray[pid].fds[i];
        if d.inUse {
          if d.driver == Some(Rtc) {
            pcbArray[pid] := pcbArray[pid].(rtcFreq := 0, rtcCounter := 0);
          }
          d := d.(driver := None);
        }
        pcbArray[pid] := pcbArray[pid].(fds := pcbArray[pid].fds[i := d.(inUse := false)]);
      }
      assert pcbArray[pid].fds == Closed(fds);
    }

    // ---- paging.c ----

    method MapProcess(physical: int)
      modifies this`processPage
      ensures processPage == LargeEntry(physical)
    {
      processPage := LargeEntry(physical);
    }

    method VidRemapping(physical: int)
      modifies this`videoPage
      ensures videoPage == VideoEntry(physical)
    {
      videoPage := VideoEntry(physical);
    }

    // ---- system_call.c: execute, restart_shell, halt ----

    /** The two slots that opening "stdin" and "stdout" fills. */
    static function OpenConsole(fds: seq<Descriptor>, fd: nat): seq<Descriptor>
      requires fd < |fds|
    {
      fds[fd := fds[fd].(inUse := true, driver := Some(if fd == 0 then Stdin else Stdout))]
    }

    /** Maps the new process, its view of the screen, and gives it a fresh descriptor table and its arguments. */
    method SetUp(pid: nat, caller: Context, request: seq<Byte>)
      requires Sizes() && pid < PROCESSES && pid == currPid && |request| == ARGS && NUL in request
      requires 0 <= pcbArray[pid].terminalNumber < TERMINALS
      modifies this`processPage, this`videoPage, this`esp0, pcbArray
      ensures processPage == ProcessEntry(pid) && esp0 == KernelStack(pid)
      ensures var t := old(pcbArray[pid].terminalNumber);
              videoPage == VideoEntry(if t == screens.curDisplayTid then VIDEO else terminals[t].vidBuf)
      ensures pcbArray[..] == old(pcbArray[..])[pid := old(pcbArray[pid]).(saved := caller, fds := FRESH_TABLE,
                                args := Padded(Text(request), ARGS))]
    {
      ghost var before := pcbArray[..];
      var t := pcbArray[pid].terminalNumber;
      pcbArray[pid] := pcbArray[pid].(saved := caller);
      MapProcess(0x80_0000 + currPid * 0x40_0000);
      if t == screens.curDisplayTid {
        VidRemapping(VIDEO);
      } else {
        VidRemapping(terminals[t].vidBuf);
      }
      var fds: seq<Descriptor> := [];
      for i := 0 to OPEN_FILES
        invariant |fds| == i && forall j :: 0 <= j < i ==> fds[j] == CLOSED
      {
        fds := fds + [Descriptor(None, -1, 0, false)];
      }
      var argsBuf := new Byte[128];
      StrNCpy(argsBuf, 0, request, ARGS);
      fds := OpenConsole(OpenConsole(fds, 0), 1);
      assert fds == FRESH_TABLE;
      assert argsBuf[0..0 + ARGS] == argsBuf[..];
      pcbArray[pid] := pcbArray[pid].(fds := fds, args := argsBuf[..]);
      esp0 := 0x80_0000 - 0x2000 * currPid - 4;
      assert pcbArray[..] == before[pid := before[pid].(saved := caller, fds := FRESH_TABLE,
                                                        args := Padded(Text(request), ARGS))];
    }

    /** execute from the moment the program has been accepted. */
    method Launch(caller: Context, request: seq<Byte>) returns (pid: int)
      requires Sizes() && |request| == ARGS && NUL in request && 0 <= shellTid
      requires shellTid > 2 ==> 0 <= currPid < PROCESSES && 0 <= pcbArray[currPid].terminalNumber < TERMINALS
      modifies Tables()
      ensures dirReadnum == old(dirReadnum)
      ensures sys == old(sys)
      ensures pid == FirstZero(old(processArray[..]), 0)
      ensures View() == if pid == -1 then old(View())
                else LaunchTables(old(View()), pid, caller, Padded(Text(request), ARGS))
    {
      hide Text, Padded, VideoEntry, ProcessEntry, KernelStack;
      ghost var before := pcbArray[..];
      pid := CreateProcess();
      if pid == -1 {
        return;
      }
      currParentPid := currPid;
      currPid := pid;
      var t;
      if shellTid > 2 {
        t := pcbArray[currParentPid].terminalNumber;
        terminals[t] := terminals[t].(curPid := currPid);
        pcbArray[currPid] := pcbArray[currPid].(terminalNumber := t);
      } else {
        t := shellTid;
        terminals[shellTid] := terminals[shellTid].(curPid := currPid);
        currParentPid := currPid;
        pcbArray[currPid] := pcbArray[currPid].(terminalNumber := shellTid);
      }
      BindNewPcb(currPid, currParentPid);
      assert pcbArray[..] == before[pid := before[pid].(terminalNumber := t, pid := pid,
                                      parentPid := if pid == 0 then pid else currParentPid)];
      SetUp(currPid, caller, request);
    }
  }
}
