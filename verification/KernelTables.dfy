// The kernel's global tables as one value, and how they represent three stacks of processes.
module KernelTables {
  import opened Bytes
  import opened Descriptors
  import opened ProcessStacks

  datatype Pcb = Pcb(pid: int, parentPid: int, fds: seq<Descriptor>, saved: Context, args: seq<Byte>,
                     terminalNumber: int, own: Context, rtcFreq: int, rtcCounter: int)

  datatype Terminal = Terminal(curPid: int, vidBuf: int)

  datatype Tables = Tables(live: seq<int>, pcbs: seq<Pcb>, terminals: seq<Terminal>, currPid: int, currParentPid: int,
                           activeTid: int, shellTid: int, displayed: int, processPage: int, videoPage: int, esp0: int)

  // ---- Addresses ----

  const VIDEO := 0xB8000

  function BufferOf(t: int): int {
    0xD0000 + 0x1000 * t
  }

  /** The 4MB frame a process runs in. */
  function FrameOf(pid: int): int {
    0x80_0000 + pid * 0x40_0000
  }

  /** address | 7: present, writable, user. */
  function VideoEntry(address: int): int {
    address - address % 8 + 7
  }

  /** address | 0x87: the same, and a 4MB page. */
  function LargeEntry(address: int): int {
    VideoEntry(address) + if address / 0x80 % 2 == 1 then 0 else 0x80
  }

  /** Directory entry 32 for a process. */
  function ProcessEntry(pid: int): int {
    LargeEntry(FrameOf(pid))
  }

  /** The bitwise or of two numbers, binary digit by binary digit. */
  function Or(a: nat, b: nat): nat
    decreases a + b
  {
    if a == 0 && b == 0 then 0 else 2 * Or(a / 2, b / 2) + if a % 2 == 1 || b % 2 == 1 then 1 else 0
  }

  lemma {:induction false} OrNothing(a: nat)
    ensures Or(a, 0) == a
  {
    if a > 0 {
      OrNothing(a / 2);
    }
  }

  /** Or with the lowest digit apart. */
  lemma OrDigit(a: nat, b: nat)
    ensures Or(a, b) == 2 * Or(a / 2, b / 2) + if a % 2 == 1 || b % 2 == 1 then 1 else 0
  {
  }

  /** The two entries are the address with the flags or'ed in, for every address. */
  lemma EntriesAreOrs(address: nat)
    ensures VideoEntry(address) == Or(address, 7) && LargeEntry(address) == Or(address, 0x87)
  {
    hide Or;
    var a1, a2, a3 := address / 2, address / 4, address / 8;
    OrDigit(address, 7);
    OrDigit(a1, 3);
    OrDigit(a2, 1);
    OrNothing(a3);
    OrDigit(address, 0x87);
    OrDigit(a1, 0x43);
    OrDigit(a2, 0x21);
    OrAtSixteen(a3);
  }

  /** The digit at 16 or'ed into a number. */
  lemma OrAtSixteen(a: nat)
    ensures Or(a, 16) == a + if a / 16 % 2 == 1 then 0 else 16
  {
    hide Or;
    OrDigit(a, 16);
    OrAtEight(a / 2);
    Halves(a);
  }

  lemma OrAtEight(a: nat)
    ensures Or(a, 8) == a + if a / 8 % 2 == 1 then 0 else 8
  {
    hide Or;
    OrDigit(a, 8);
    OrDigit(a / 2, 4);
    OrDigit(a / 4, 2);
    OrDigit(a / 8, 1);
    OrNothing(a / 16);
  }

  lemma Halves(a: nat)
    ensures a / 2 / 8 == a / 16
  {
  }

  // The same formulas on machine words: they set exactly those bits.

  lemma UserFlags(address: bv32)
    ensures address | 7 == address - (address & 7) + 7
  {
  }

  lemma LargeFlag(address: bv32)
    ensures address | 0x87 == (address | 7) + if address & 0x80 != 0 then 0 else 0x80
  {
  }

  lemma FlagBits(address: bv32)
    ensures address & 7 == address % 8
    ensures address & 0x80 != 0 <==> address / 0x80 % 2 == 1
  {
  }

  /** On the aligned addresses the kernel maps, the flags occupy the low bits and the rest is the address. */
  lemma EntriesHoldAddress(pid: nat, t: nat)
    requires pid < PROCESSES && t < TERMINALS
    ensures ProcessEntry(pid) == FrameOf(pid) + 0x87 && FrameOf(pid) % 0x40_0000 == 0
    ensures VideoEntry(VIDEO) == VIDEO + 7 && VideoEntry(BufferOf(t)) == BufferOf(t) + 7 && BufferOf(t) % 0x1000 == 0
  {
    assert pid == 0 || pid == 1 || pid == 2 || pid == 3 || pid == 4 || pid == 5;
    assert t == 0 || t == 1 || t == 2;
  }

  /** Where the running program's video page should lead. */
  function VideoOf(t: int, displayed: int): int {
    if t == displayed then VIDEO else BufferOf(t)
  }

  /** The 8KB block that holds a process's PCB at its low end and its kernel stack growing down from its high end. */
  function BlockOf(pid: int): int {
    0x80_0000 - 0x2000 * (1 + pid)
  }

  function KernelStack(pid: int): int {
    0x80_0000 - 0x2000 * pid - 4
  }

  lemma MemoryIsDisjoint(p: nat, q: nat)
    requires p < PROCESSES && q < PROCESSES && p != q
    ensures FrameOf(p) + 0x40_0000 <= FrameOf(q) || FrameOf(q) + 0x40_0000 <= FrameOf(p)
    ensures BlockOf(p) + 0x2000 <= BlockOf(q) || BlockOf(q) + 0x2000 <= BlockOf(p)
    ensures BlockOf(p) + 0x2000 <= 0x80_0000 <= FrameOf(q)
    ensures BlockOf(p) <= KernelStack(p) < BlockOf(p) + 0x2000
    ensures ProcessEntry(p) != ProcessEntry(q)
  {
  }

  /** Frames lie one behind the other in order of pid, blocks the other way, and each stack starts in its last word. */
  lemma MemoryIsPacked(p: nat)
    requires p + 1 < PROCESSES
    ensures BlockOf(0) + 0x2000 == 0x80_0000 == FrameOf(0)
    ensures FrameOf(p + 1) == FrameOf(p) + 0x40_0000 && BlockOf(p) == BlockOf(p + 1) + 0x2000
    ensures KernelStack(p) + 4 == BlockOf(p) + 0x2000
  {
  }

  /** Video memory and the terminals' buffers are different pages, below the kernel's. */
  lemma PagesAreDisjoint(t: nat, u: nat)
    requires t < u < TERMINALS
    ensures VIDEO + 0x1000 <= BufferOf(t) && BufferOf(t) + 0x1000 <= BufferOf(u)
    ensures BufferOf(u) + 0x1000 <= 0x10_0000
  {
  }

  // ---- The representation ----

  function ParentOf(s: System, t: int, i: int): int
    requires At(s, t, i)
  {
    if i == 0 then Proc(s, t, 0).pid else Proc(s, t, i - 1).pid
  }

  /** The PCB of a stacked process holds its record, its parent below it (the root is its own) and its terminal. */
  ghost predicate Recorded(k: Tables, s: System, t: int, i: int)
    requires At(s, t, i) && |k.pcbs| == PROCESSES
  {
    var p := Proc(s, t, i);
    p.pid < PROCESSES &&
    k.pcbs[p.pid] == Pcb(p.pid, ParentOf(s, t, i), p.fds, p.returnTo, p.args, t, k.pcbs[p.pid].own, p.rtcFreq,
      p.rtcCounter)
  }

  function TopPid(s: System, t: int): int
    requires 0 <= t < |s.consoles|
  {
    if s.consoles[t].stack == [] then -1 else s.consoles[t].stack[|s.consoles[t].stack| - 1].pid
  }

  ghost predicate TerminalRecorded(k: Tables, s: System, t: int)
    requires 0 <= t < |s.consoles| && 0 <= t < |k.terminals| && |k.pcbs| == PROCESSES
  {
    && k.terminals[t] == Terminal(TopPid(s, t), BufferOf(t))
    && (s.consoles[t].stack != [] && s.consoles[t].parked.Some? ==>
          0 <= TopPid(s, t) < PROCESSES && k.pcbs[TopPid(s, t)].own == s.consoles[t].parked.value)
  }

  /** The globals name the top of the running terminal, and its memory is the memory mapped. */
  ghost predicate Current(k: Tables, s: System)
    requires s.running < |s.consoles| && |k.pcbs| == PROCESSES
  {
    var pid := TopPid(s, s.running);
    && k.currPid == pid
    && 0 <= pid < PROCESSES && k.currParentPid == k.pcbs[pid].parentPid
    && k.processPage == ProcessEntry(pid)
    && k.esp0 == KernelStack(pid)
    && k.videoPage == VideoEntry(VideoOf(s.running, s.displayed))
  }

  predicate Sized(k: Tables) {
    |k.live| == PROCESSES && |k.pcbs| == PROCESSES && |k.terminals| == TERMINALS
  }

  ghost predicate AllRecorded(k: Tables, s: System)
    requires Sized(k)
  {
    forall t, i :: At(s, t, i) ==> Recorded(k, s, t, i)
  }

  /** Exactly the stacked pids are marked in use, and the clocks of the others are closed. */
  ghost predicate LiveRecorded(k: Tables, s: System)
    requires Sized(k)
  {
    forall p :: 0 <= p < PROCESSES ==>
      && k.live[p] == (if Live(s, p) then 1 else 0)
      && (!Live(s, p) ==> k.pcbs[p].rtcFreq == 0 && k.pcbs[p].rtcCounter == 0)
  }

  ghost predicate TerminalsRecorded(k: Tables, s: System)
    requires Sized(k) && |s.consoles| == TERMINALS
  {
    forall t :: 0 <= t < TERMINALS ==> TerminalRecorded(k, s, t)
  }

  ghost predicate Represents(k: Tables, s: System) {
    && Sized(k) && Ok(s)
    && k.activeTid == s.running && k.shellTid == s.shellTid && k.displayed == s.displayed
    && AllRecorded(k, s)
    && LiveRecorded(k, s)
    && TerminalsRecorded(k, s)
    && (s.consoles[s.running].stack != [] ==> Current(k, s))
  }

  // ---- What the tables say by themselves ----

  /** The n-th ancestor by parent pids. */
  function Climb(k: Tables, pid: int, n: nat): int
    decreases n
  {
    if n == 0 || !(0 <= pid < |k.pcbs|) then pid else Climb(k, k.pcbs[pid].parentPid, n - 1)
  }

  lemma {:induction false} ClimbFollowsStack(k: Tables, s: System, t: nat, i: nat, n: nat)
    requires Sized(k) && AllRecorded(k, s) && At(s, t, i) && n <= i
    ensures Climb(k, Proc(s, t, i).pid, n) == Proc(s, t, i - n).pid
    decreases n
  {
    if n > 0 {
      assert Recorded(k, s, t, i) && At(s, t, i - 1);
      ClimbFollowsStack(k, s, t, i - 1, n - 1);
    }
  }

  /** The n-th pid of terminal t's parent chain is the n-th process from the top of its stack, and is marked as t's. */
  lemma ChainIsStack(k: Tables, s: System, t: nat, n: nat)
    requires Sized(k) && AllRecorded(k, s) && |s.consoles| == TERMINALS && TerminalsRecorded(k, s)
    requires t < TERMINALS && n < |s.consoles[t].stack|
    ensures var i := |s.consoles[t].stack| - 1 - n;
            && At(s, t, i) && Climb(k, k.terminals[t].curPid, n) == Proc(s, t, i).pid < PROCESSES
            && k.pcbs[Climb(k, k.terminals[t].curPid, n)].terminalNumber == t
  {
    var top := |s.consoles[t].stack| - 1;
    assert TerminalRecorded(k, s, t) && At(s, t, top);
    ClimbFollowsStack(k, s, t, top, n);
    assert At(s, t, top - n) && Recorded(k, s, t, top - n);
  }

  /**
   * From each terminal's current pid the parent chain runs down its stack to the terminal's own number, where it
   * stays: it meets the root only at the end, and every pid on it carries the terminal's number.
   */
  lemma ParentChain(k: Tables, s: System, t: nat)
    requires Represents(k, s) && Booted(s) && t < TERMINALS
    ensures var depth := |s.consoles[t].stack|;
            && 0 < depth
            && Climb(k, k.terminals[t].curPid, depth - 1) == t == k.pcbs[t].parentPid
            && forall n: nat :: n < depth - 1 ==> OnChain(k, t, n) && Climb(k, k.terminals[t].curPid, n) != t
  {
    hide TableOk, ArgsOk, BootOrder, Current, Climb;
    var depth := |s.consoles[t].stack|;
    ChainIsStack(k, s, t, depth - 1);
    assert At(s, t, 0) && Recorded(k, s, t, 0);
    forall n: nat | n < depth - 1 ensures OnChain(k, t, n) && Climb(k, k.terminals[t].curPid, n) != t {
      ChainIsStack(k, s, t, n);
      assert At(s, t, depth - 1 - n);
    }
  }

  /** The n-th pid of terminal t's chain is a process of terminal t. */
  ghost predicate OnChain(k: Tables, t: nat, n: nat)
    requires Sized(k) && t < TERMINALS
  {
    var pid := Climb(k, k.terminals[t].curPid, n);
    0 <= pid < PROCESSES && k.pcbs[pid].terminalNumber == t
  }

  /** The chains share no pid, no pid comes twice on one, and between them they hold exactly the pids in use. */
  lemma ChainsPartition(k: Tables, s: System, pid: nat)
    requires Represents(k, s) && Booted(s) && pid < PROCESSES
    ensures k.live[pid] == 1 <==> exists t: nat, n: nat :: InChain(k, s, t, n, pid)
    ensures forall t: nat, n: nat, u: nat, m: nat :: InChain(k, s, t, n, pid) && InChain(k, s, u, m, pid)
              ==> t == u && n == m
  {
    hide ProcessOk, Current, AllRecorded, TerminalsRecorded, Climb;
    if k.live[pid] == 1 {
      var t, i :| At(s, t, i) && Proc(s, t, i).pid == pid;
      ChainIsStack(k, s, t, |s.consoles[t].stack| - 1 - i);
      assert InChain(k, s, t, |s.consoles[t].stack| - 1 - i, pid);
    }
    forall t: nat, n: nat | InChain(k, s, t, n, pid)
      ensures At(s, t, |s.consoles[t].stack| - 1 - n) && Proc(s, t, |s.consoles[t].stack| - 1 - n).pid == pid
    {
      ChainIsStack(k, s, t, n);
    }
  }

  /** Climbing n parents from terminal t's current pid, without passing its root, leads to pid. */
  ghost predicate InChain(k: Tables, s: System, t: nat, n: nat, pid: nat)
    requires Sized(k)
  {
    t < TERMINALS && t < |s.consoles| && n < |s.consoles[t].stack| && Climb(k, k.terminals[t].curPid, n) == pid
  }

  /** The running program sees its own frame, and the screen exactly when its terminal is displayed. */
  lemma RunningIsMapped(k: Tables, s: System)
    requires Represents(k, s) && Booted(s)
    ensures k.processPage == ProcessEntry(k.currPid) && k.live[k.currPid] == 1
    ensures k.pcbs[k.currPid].terminalNumber == k.activeTid && k.terminals[k.activeTid].curPid == k.currPid
    ensures k.videoPage == VideoEntry(VIDEO) <==> k.activeTid == k.displayed
    ensures k.activeTid != k.displayed ==> k.videoPage == VideoEntry(k.terminals[k.activeTid].vidBuf)
  {
    var t, i := s.running, |s.consoles[s.running].stack| - 1;
    assert At(s, t, i) && Recorded(k, s, t, i) && TerminalRecorded(k, s, t);
    assert Live(s, k.currPid);
  }

  /** vidmap always maps the screen; that is right exactly when the caller's terminal is displayed. */
  lemma VidmapIsRightOnlyInFront(k: Tables, s: System)
    requires Represents(k, s) && Booted(s)
    ensures Represents(k.(videoPage := VideoEntry(VIDEO)), s) <==> k.activeTid == k.displayed
  {
    var r := k.(videoPage := VideoEntry(VIDEO));
    assert forall t, i :: At(s, t, i) && Recorded(k, s, t, i) ==> Recorded(r, s, t, i);
    assert forall t :: 0 <= t < TERMINALS && TerminalRecorded(k, s, t) ==> TerminalRecorded(r, s, t);
  }

  // ---- Each step on the tables matches its step on the stacks ----

  /** The lowest entry of the process array that is zero, or -1: what create_process finds. */
  function FirstZero(live: seq<int>, p: nat): (r: int)
    requires p <= |live|
    ensures r == -1 || (p <= r < |live| && live[r] == 0)
    ensures forall q :: p <= q < (if r == -1 then |live| else r) ==> live[q] != 0
    decreases |live| - p
  {
    if p == |live| then -1 else if live[p] == 0 then p else FirstZero(live, p + 1)
  }

  lemma FreePidIsFirstZero(k: Tables, s: System)
    requires Represents(k, s)
    ensures FreePid(s, 0) == FirstZero(k.live, 0)
  {
  }

  /** The effect of execute once its program is accepted: lines 285-350 of system_call.c. */
  function LaunchTables(k: Tables, pid: int, caller: Context, args: seq<Byte>): Tables
    requires |k.live| == PROCESSES && |k.pcbs| == PROCESSES && |k.terminals| == TERMINALS
    requires 0 <= pid < PROCESSES && 0 <= k.shellTid
    requires k.shellTid > 2 ==> 0 <= k.currPid < PROCESSES && 0 <= k.pcbs[k.currPid].terminalNumber < TERMINALS
  {
    var t := if k.shellTid > 2 then k.pcbs[k.currPid].terminalNumber else k.shellTid;
    var parent := if k.shellTid > 2 then k.currPid else pid;
    k.(live := k.live[pid := 1],
       pcbs := k.pcbs[pid := Pcb(pid, if pid == 0 then 0 else parent, FRESH_TABLE, caller, args, t, k.pcbs[pid].own,
                                 k.pcbs[pid].rtcFreq, k.pcbs[pid].rtcCounter)],
       terminals := k.terminals[t := k.terminals[t].(curPid := pid)],
       currPid := pid, currParentPid := parent, processPage := ProcessEntry(pid), esp0 := KernelStack(pid),
       videoPage := VideoEntry(if t == k.displayed then VIDEO else k.terminals[t].vidBuf))
  }

  /** The globals lead from the current pid to the running terminal and back. */
  lemma Caller(k: Tables, s: System)
    requires Represents(k, s) && Booted(s)
    ensures var n := |s.consoles[s.running].stack|;
            && 0 < n && At(s, s.running, n - 1) && k.currPid == Proc(s, s.running, n - 1).pid < PROCESSES
            && k.pcbs[k.currPid].terminalNumber == s.running < TERMINALS
            && Live(s, 0) && Live(s, k.currPid)
  {
    assert At(s, s.running, |s.consoles[s.running].stack| - 1);
    assert Recorded(k, s, s.running, |s.consoles[s.running].stack| - 1);
    assert At(s, 0, 0) && Proc(s, 0, 0).pid == 0;
  }

  lemma ReadyToLaunch(k: Tables, s: System)
    requires Represents(k, s) && Booted(s)
    ensures k.shellTid == 3 && 0 <= k.currPid < PROCESSES && 0 <= k.pcbs[k.currPid].terminalNumber < TERMINALS
    ensures FreePid(s, 0) == FirstZero(k.live, 0)
  {
    Caller(k, s);
    FreePidIsFirstZero(k, s);
  }

  lemma LaunchRepresents(k: Tables, s: System, pid: nat, caller: Context, args: seq<Byte>)
    requires pid < PROCESSES && ArgsOk(args)
    requires Represents(k, s) && Booted(s) && pid == FreePid(s, 0)
    ensures 0 <= k.currPid < PROCESSES && k.pcbs[k.currPid].terminalNumber == s.running
    ensures Represents(LaunchTables(k, pid, caller, args), ExecuteStep(s, caller, Some(args)))
  {
    hide AllRecorded, LiveRecorded, TerminalsRecorded, Current;
    Caller(k, s);
    assert pid != 0;
    FreshTableOk();
    PushOk(s, s.running, NewProcess(pid, caller, args));
    PushRepresents(k, s, s.running, NewProcess(pid, caller, args), LaunchTables(k, pid, caller, args));
  }

  /** During boot the tick handler has already made the booting terminal the active one. */
  lemma BootRepresents(k: Tables, s: System, launch: Context)
    requires Represents(k, s) && !Booted(s) && s.consoles[s.shellTid].stack == []
    requires s.shellTid > 0 ==> s.consoles[s.running].parked.Some?
    ensures FreePid(s, 0) == s.shellTid
    ensures Represents(LaunchTables(k.(activeTid := s.shellTid), s.shellTid, launch, NoArgs()),
                       Push(s, s.shellTid, NewProcess(s.shellTid, launch, NoArgs())))
  {
    BootPid(s);
    FreshTableOk();
    PushOk(s, s.shellTid, NewProcess(s.shellTid, launch, NoArgs()));
    PushRepresents(k, s, s.shellTid, NewProcess(s.shellTid, launch, NoArgs()),
                   LaunchTables(k.(activeTid := s.shellTid), s.shellTid, launch, NoArgs()));
  }

  lemma PushRepresents(k: Tables, s: System, t: nat, p: Process, q: Tables)
    requires Represents(k, s) && t < TERMINALS && Ok(Push(s, t, p)) && Sized(q)
    requires p.pid < PROCESSES && !Live(s, p.pid) && p.rtcFreq == p.rtcCounter == 0
    requires q.activeTid == t && q.shellTid == k.shellTid && q.displayed == k.displayed
    requires var n := |s.consoles[t].stack|;
             var parent := if n == 0 then p.pid else Proc(s, t, n - 1).pid;
             && q.live == k.live[p.pid := 1]
             && q.pcbs == k.pcbs[p.pid := Pcb(p.pid, parent, p.fds, p.returnTo, p.args, t, k.pcbs[p.pid].own,
                                              k.pcbs[p.pid].rtcFreq, k.pcbs[p.pid].rtcCounter)]
             && q.terminals == k.terminals[t := k.terminals[t].(curPid := p.pid)]
             && q.currPid == p.pid && q.currParentPid == parent
             && q.processPage == ProcessEntry(p.pid) && q.esp0 == KernelStack(p.pid)
             && q.videoPage == VideoEntry(if t == k.displayed then VIDEO else k.terminals[t].vidBuf)
    ensures Represents(q, Push(s, t, p))
  {
    assert k.pcbs[p.pid].rtcFreq == 0 && k.pcbs[p.pid].rtcCounter == 0;
    assert TerminalRecorded(k, s, t);
    LaunchRecorded(k, s, t, p, q);
    LaunchLive(k, s, t, p, q);
    LaunchTerminals(k, s, t, p, q);
  }

  lemma LaunchRecorded(k: Tables, s: System, t: nat, p: Process, q: Tables)
    requires Sized(k) && Sized(q) && AllRecorded(k, s) && t < |s.consoles| && p.pid < PROCESSES && !Live(s, p.pid)
    requires forall x :: 0 <= x < PROCESSES && x != p.pid ==> q.pcbs[x] == k.pcbs[x]
    requires var n := |s.consoles[t].stack|;
             q.pcbs[p.pid] == Pcb(p.pid, if n == 0 then p.pid else Proc(s, t, n - 1).pid, p.fds, p.returnTo, p.args, t,
                                  q.pcbs[p.pid].own, p.rtcFreq, p.rtcCounter)
    ensures AllRecorded(q, Push(s, t, p))
  {
    var r, n := Push(s, t, p), |s.consoles[t].stack|;
    forall u, i | At(r, u, i) ensures Recorded(q, r, u, i) {
      if u != t || i < n {
        assert At(s, u, i) && Recorded(k, s, u, i) && Proc(s, u, i).pid != p.pid;
      }
    }
  }

  lemma LaunchLive(k: Tables, s: System, t: nat, p: Process, q: Tables)
    requires Sized(k) && Sized(q) && LiveRecorded(k, s) && t < |s.consoles| && p.pid < PROCESSES
    requires q.live == k.live[p.pid := 1]
    requires forall x :: 0 <= x < PROCESSES && x != p.pid ==> q.pcbs[x] == k.pcbs[x]
    ensures LiveRecorded(q, Push(s, t, p))
  {
    forall x | 0 <= x < PROCESSES
      ensures q.live[x] == if Live(Push(s, t, p), x) then 1 else 0
      ensures !Live(Push(s, t, p), x) ==> q.pcbs[x].rtcFreq == 0 && q.pcbs[x].rtcCounter == 0
    {
      LiveAfterPush(s, t, p, x);
    }
  }

  lemma LaunchTerminals(k: Tables, s: System, t: nat, p: Process, q: Tables)
    requires Sized(k) && Sized(q) && |s.consoles| == TERMINALS && TerminalsRecorded(k, s) && t < TERMINALS
    requires p.pid < PROCESSES && !Live(s, p.pid)
    requires q.terminals == k.terminals[t := k.terminals[t].(curPid := p.pid)]
    requires forall x :: 0 <= x < PROCESSES && x != p.pid ==> q.pcbs[x] == k.pcbs[x]
    ensures TerminalsRecorded(q, Push(s, t, p))
  {
    forall u | 0 <= u < TERMINALS ensures TerminalRecorded(q, Push(s, t, p), u) {
      assert TerminalRecorded(k, s, u);
      assert s.consoles[u].stack != [] ==> At(s, u, |s.consoles[u].stack| - 1);
    }
  }

  lemma LiveAfterPush(s: System, t: nat, p: Process, x: int)
    requires t < |s.consoles|
    ensures Live(Push(s, t, p), x) <==> Live(s, x) || x == p.pid
  {
    var r := Push(s, t, p);
    if Live(s, x) {
      var u, i :| At(s, u, i) && Proc(s, u, i).pid == x;
      assert At(r, u, i) && Proc(r, u, i).pid == x;
    }
    if x == p.pid {
      assert At(r, t, |s.consoles[t].stack|) && Proc(r, t, |s.consoles[t].stack|) == p;
    }
    if Live(r, x) {
      var u, i :| At(r, u, i) && Proc(r, u, i).pid == x;
      assert (u == t && i == |s.consoles[t].stack|) || (At(s, u, i) && Proc(s, u, i).pid == x);
    }
  }

  /** The PCB that records process p of terminal t. */
  function PcbFor(p: Process, parent: int, t: int, own: Context): Pcb {
    Pcb(p.pid, parent, p.fds, p.returnTo, p.args, t, own, p.rtcFreq, p.rtcCounter)
  }

  /** q differs from k only in PCBs, and keeps each PCB's parent, terminal and own context. */
  predicate SamePlaces(k: Tables, q: Tables)
    requires Sized(k) && Sized(q)
  {
    && q == k.(pcbs := q.pcbs)
    && forall x :: 0 <= x < PROCESSES ==>
         && q.pcbs[x].parentPid == k.pcbs[x].parentPid && q.pcbs[x].terminalNumber == k.pcbs[x].terminalNumber
         && q.pcbs[x].own == k.pcbs[x].own
  }

  /** Rewriting records in place: nothing about stacks, parents or contexts moves. */
  lemma InPlaceRepresents(k: Tables, s: System, q: Tables, r: System)
    requires Represents(k, s) && Ok(r) && SamePids(s, r) && Sized(q) && SamePlaces(k, q)
    requires r.running == s.running && r.displayed == s.displayed && r.shellTid == s.shellTid
    requires forall t :: 0 <= t < TERMINALS ==> r.consoles[t].parked == s.consoles[t].parked
    requires AllRecorded(q, r)
    requires forall x :: 0 <= x < PROCESSES && k.live[x] == 0 ==> q.pcbs[x] == k.pcbs[x]
    ensures Represents(q, r)
  {
    SamePidsLive(s, r);
    InPlaceTerminals(k, s, q, r);
  }

  lemma InPlaceTerminals(k: Tables, s: System, q: Tables, r: System)
    requires Sized(k) && Sized(q) && SamePlaces(k, q) && SamePids(s, r) && |s.consoles| == TERMINALS
    requires TerminalsRecorded(k, s)
    requires forall t :: 0 <= t < TERMINALS ==> r.consoles[t].parked == s.consoles[t].parked
    ensures TerminalsRecorded(q, r)
    ensures forall u :: 0 <= u < TERMINALS ==> TopPid(r, u) == TopPid(s, u)
  {
    forall u | 0 <= u < TERMINALS ensures TerminalRecorded(q, r, u) && TopPid(r, u) == TopPid(s, u) {
      assert TerminalRecorded(k, s, u);
      var n := |s.consoles[u].stack| - 1;
      assert n >= 0 ==> At(s, u, n) && At(r, u, n);
    }
  }

  lemma SetTopRecorded(k: Tables, s: System, p: Process, q: Tables)
    requires Sized(k) && Sized(q) && AllRecorded(k, s) && Distinct(s)
    requires s.running < |s.consoles| && s.consoles[s.running].stack != [] && p.pid == Top(s).pid < PROCESSES
    requires q.pcbs == k.pcbs[p.pid := PcbFor(p, k.pcbs[p.pid].parentPid, s.running, k.pcbs[p.pid].own)]
    ensures AllRecorded(q, SetTop(s, p))
  {
    var r, t, n := SetTop(s, p), s.running, |s.consoles[s.running].stack| - 1;
    assert At(s, t, n) && Recorded(k, s, t, n);
    forall u, i | At(r, u, i) ensures Recorded(q, r, u, i) {
      assert At(s, u, i) && Recorded(k, s, u, i);
      assert i > 0 ==> At(s, u, i - 1) && Proc(r, u, i - 1).pid == Proc(s, u, i - 1).pid;
    }
  }

  lemma SetTopSamePids(s: System, p: Process)
    requires s.running < |s.consoles| && s.consoles[s.running].stack != [] && p.pid == Top(s).pid
    ensures SamePids(s, SetTop(s, p))
  {
  }

  /** Rewriting the record of the running process: its own calls, and the restart of a shell. */
  lemma SetTopRepresents(k: Tables, s: System, p: Process, q: Tables)
    requires Represents(k, s) && Booted(s) && ProcessOk(p) && p.pid == Top(s).pid
    requires q == k.(pcbs := k.pcbs[p.pid := PcbFor(p, k.pcbs[p.pid].parentPid, s.running, k.pcbs[p.pid].own)])
    ensures Represents(q, SetTop(s, p))
  {
    SetTopOk(s, p);
    SetTopRecorded(k, s, p, q);
    PoppedParent(k, s);
    SetTopSamePids(s, p);
    InPlaceRepresents(k, s, q, SetTop(s, p));
  }

  /** Halting a process that has a parent: lines 497-515 of system_call.c. */
  lemma PopRepresents(k: Tables, s: System, restart: Context, q: Tables)
    requires Represents(k, s) && Booted(s) && |s.consoles[s.running].stack| > 1 && Sized(q)
    requires var pid, parent := k.currPid, k.currParentPid;
             && 0 <= pid < PROCESSES && 0 <= parent < PROCESSES
             && q.live == k.live[pid := 0]
             && (forall x :: 0 <= x < PROCESSES && x != pid ==> q.pcbs[x] == k.pcbs[x])
             && q.pcbs[pid].rtcFreq == 0 && q.pcbs[pid].rtcCounter == 0
             && q.terminals == k.terminals[s.running := k.terminals[s.running].(curPid := parent)]
             && q.currPid == parent && q.currParentPid == k.pcbs[parent].parentPid
             && q.activeTid == k.activeTid && q.shellTid == k.shellTid && q.displayed == k.displayed
             && q.processPage == ProcessEntry(parent) && q.esp0 == KernelStack(parent) && q.videoPage == k.videoPage
    ensures Represents(q, HaltStep(s, restart))
  {
    HaltOk(s, restart);
    PoppedParent(k, s);
    PopRecorded(k, s, restart, q);
    forall x | 0 <= x < PROCESSES
      ensures q.live[x] == if Live(HaltStep(s, restart), x) then 1 else 0
      ensures !Live(HaltStep(s, restart), x) ==> q.pcbs[x].rtcFreq == 0 && q.pcbs[x].rtcCounter == 0
    {
      PoppedLive(s, restart, x);
    }
    PopTerminals(k, s, restart, q);
  }

  lemma PopRecorded(k: Tables, s: System, restart: Context, q: Tables)
    requires Sized(k) && Sized(q) && AllRecorded(k, s) && Distinct(s)
    requires s.running < |s.consoles| && |s.consoles[s.running].stack| > 1
    requires forall x :: 0 <= x < PROCESSES && x != Top(s).pid ==> q.pcbs[x] == k.pcbs[x]
    ensures AllRecorded(q, HaltStep(s, restart))
  {
    var r, t, n := HaltStep(s, restart), s.running, |s.consoles[s.running].stack|;
    assert At(s, t, n - 1);
    forall u, i | At(r, u, i) ensures Recorded(q, r, u, i) {
      assert At(s, u, i) && Recorded(k, s, u, i);
      assert i > 0 ==> At(s, u, i - 1);
    }
  }

  lemma PopTerminals(k: Tables, s: System, restart: Context, q: Tables)
    requires Sized(k) && Sized(q) && |s.consoles| == TERMINALS && TerminalsRecorded(k, s) && Distinct(s)
    requires s.running < |s.consoles| && |s.consoles[s.running].stack| > 1
    requires forall x :: 0 <= x < PROCESSES && x != Top(s).pid ==> q.pcbs[x] == k.pcbs[x]
    requires var n := |s.consoles[s.running].stack|;
             q.terminals == k.terminals[s.running := k.terminals[s.running].(curPid := Proc(s, s.running, n - 2).pid)]
    ensures TerminalsRecorded(q, HaltStep(s, restart))
  {
    var r, t, n := HaltStep(s, restart), s.running, |s.consoles[s.running].stack|;
    assert At(s, t, n - 1);
    forall u | 0 <= u < TERMINALS ensures TerminalRecorded(q, r, u) {
      assert TerminalRecorded(k, s, u);
      assert s.consoles[u].stack != [] ==> At(s, u, |s.consoles[u].stack| - 1);
    }
  }

  /** The parent global names the process under the running one, and that one is recorded as of this terminal. */
  lemma PoppedParent(k: Tables, s: System)
    requires Represents(k, s) && Booted(s)
    ensures var n := |s.consoles[s.running].stack|;
            && (n == 1 <==> k.currPid == k.currParentPid)
            && (n > 1 ==> At(s, s.running, n - 2) && k.currParentPid == Proc(s, s.running, n - 2).pid < PROCESSES
                          && k.currParentPid != k.currPid && k.pcbs[k.currParentPid].terminalNumber == s.running)
            && 0 <= k.currPid < PROCESSES && k.currPid == Top(s).pid && k.live[k.currPid] == 1
            && k.pcbs[k.currPid] == PcbFor(Top(s), k.currParentPid, s.running, k.pcbs[k.currPid].own)
  {
    var t, n := s.running, |s.consoles[s.running].stack|;
    assert At(s, t, n - 1) && Recorded(k, s, t, n - 1) && Live(s, k.currPid);
    if n > 1 {
      assert At(s, t, n - 2) && Recorded(k, s, t, n - 2);
    }
  }

  lemma PoppedLive(s: System, restart: Context, x: int)
    requires Ok(s) && Booted(s) && |s.consoles[s.running].stack| > 1
    ensures Live(HaltStep(s, restart), x) <==> Live(s, x) && x != Top(s).pid
  {
    hide ProcessOk;
    var r, t, n := HaltStep(s, restart), s.running, |s.consoles[s.running].stack|;
    assert At(s, t, n - 1);
    if Live(s, x) && x != Top(s).pid {
      var u, i :| At(s, u, i) && Proc(s, u, i).pid == x;
      assert At(r, u, i) && Proc(r, u, i) == Proc(s, u, i);
    }
    if Live(r, x) {
      var u, i :| At(r, u, i) && Proc(r, u, i).pid == x;
      assert At(s, u, i) && Proc(s, u, i) == Proc(r, u, i);
    }
  }

  lemma InterruptRepresents(k: Tables, s: System, q: Tables)
    requires Represents(k, s) && Sized(q) && q == k.(pcbs := q.pcbs)
    requires forall x :: 0 <= x < PROCESSES
               ==> q.pcbs[x] == if k.live[x] == 0 then k.pcbs[x] else InterruptedPcb(k.pcbs[x])
    ensures Represents(q, InterruptStep(s))
  {
    InterruptOk(s);
    InterruptRecorded(k, s, q);
    InPlaceRepresents(k, s, q, InterruptStep(s));
  }

  function InterruptedPcb(p: Pcb): Pcb {
    if p.rtcFreq == 0 then p else p.(rtcCounter := p.rtcCounter + 1)
  }

  lemma InterruptRecorded(k: Tables, s: System, q: Tables)
    requires Sized(k) && Sized(q) && AllRecorded(k, s) && LiveRecorded(k, s)
    requires forall x :: 0 <= x < PROCESSES
               ==> q.pcbs[x] == if k.live[x] == 0 then k.pcbs[x] else InterruptedPcb(k.pcbs[x])
    ensures AllRecorded(q, InterruptStep(s))
  {
    var r := InterruptStep(s);
    forall u, i | At(r, u, i) ensures Recorded(q, r, u, i) {
      assert At(s, u, i) && Recorded(k, s, u, i) && Live(s, Proc(s, u, i).pid);
      assert Proc(r, u, i) == Interrupted(Proc(s, u, i));
      assert i > 0 ==> At(s, u, i - 1) && Proc(r, u, i - 1) == Interrupted(Proc(s, u, i - 1));
    }
  }

  lemma DisplayRepresents(k: Tables, s: System, n: nat, q: Tables)
    requires Represents(k, s) && n < TERMINALS
    requires q == k.(displayed := n, videoPage := VideoEntry(VideoOf(s.running, n)))
    ensures Represents(q, s.(displayed := n))
  {
    var r := s.(displayed := n);
    SamePidsOk(s, r);
    forall u, i | At(r, u, i) ensures Recorded(q, r, u, i) {
      assert At(s, u, i) && Recorded(k, s, u, i);
    }
    forall u | 0 <= u < TERMINALS ensures TerminalRecorded(q, r, u) {
      assert TerminalRecorded(k, s, u);
    }
  }

  /** How the running process's globals tell whether terminal n is its own. */
  lemma ShownIsOwn(k: Tables, s: System, n: nat)
    requires Represents(k, s) && n < TERMINALS && s.consoles[s.running].stack != []
    ensures 0 <= k.currPid < PROCESSES && 0 <= k.pcbs[k.currPid].terminalNumber < TERMINALS
    ensures k.terminals[k.pcbs[k.currPid].terminalNumber].vidBuf == BufferOf(s.running)
    ensures k.currPid == k.terminals[n].curPid <==> n == s.running
  {
    hide ProcessOk;
    var t, i := s.running, |s.consoles[s.running].stack| - 1;
    assert At(s, t, i) && Recorded(k, s, t, i) && TerminalRecorded(k, s, t) && TerminalRecorded(k, s, n);
    if n != t && s.consoles[n].stack != [] {
      assert At(s, n, |s.consoles[n].stack| - 1);
    }
  }

  /** Saving a terminal's context in the PCB of its current process. */
  lemma ParkRepresents(k: Tables, s: System, t: nat, context: Context, q: Tables)
    requires Represents(k, s) && t < TERMINALS && s.consoles[t].stack != []
    requires var pid := k.terminals[t].curPid;
             0 <= pid < PROCESSES && q == k.(pcbs := k.pcbs[pid := k.pcbs[pid].(own := context)])
    ensures Represents(q, Park(s, t, context))
  {
    hide ProcessOk, AllRecorded, LiveRecorded, TerminalsRecorded;
    assert TerminalRecorded(k, s, t) by {
      TerminalIs(k, s, t);
    }
    ParkOk(s, t, context);
    ParkLive(k, s, t, context, q);
    SameStacksRecorded(k, s, q, Park(s, t, context));
    ParkTerminals(k, s, t, context, q);
  }

  lemma TerminalIs(k: Tables, s: System, t: nat)
    requires Sized(k) && |s.consoles| == TERMINALS && TerminalsRecorded(k, s) && t < TERMINALS
    ensures TerminalRecorded(k, s, t)
  {
  }

  lemma ParkLive(k: Tables, s: System, t: nat, context: Context, q: Tables)
    requires Sized(k) && Sized(q) && LiveRecorded(k, s) && Ok(s) && t < TERMINALS
    requires q.live == k.live
    requires forall x :: 0 <= x < PROCESSES ==>
               q.pcbs[x].rtcFreq == k.pcbs[x].rtcFreq && q.pcbs[x].rtcCounter == k.pcbs[x].rtcCounter
    ensures LiveRecorded(q, Park(s, t, context))
  {
    hide Ok;
    ParkOk(s, t, context);
  }

  lemma ParkTerminals(k: Tables, s: System, t: nat, context: Context, q: Tables)
    requires Sized(k) && Sized(q) && |s.consoles| == TERMINALS && TerminalsRecorded(k, s) && Distinct(s)
    requires t < TERMINALS && s.consoles[t].stack != []
    requires var pid := k.terminals[t].curPid;
             0 <= pid < PROCESSES && q == k.(pcbs := k.pcbs[pid := k.pcbs[pid].(own := context)])
    ensures TerminalsRecorded(q, Park(s, t, context))
  {
    assert TerminalRecorded(k, s, t);
    forall u | 0 <= u < TERMINALS ensures TerminalRecorded(q, Park(s, t, context), u) {
      assert TerminalRecorded(k, s, u);
      if u != t && s.consoles[u].stack != [] {
        assert At(s, u, |s.consoles[u].stack| - 1) && At(s, t, |s.consoles[t].stack| - 1);
      }
    }
  }

  /** Parking and resuming leave stacks alone and PCBs too, but for the own contexts. */
  lemma SameStacksRecorded(k: Tables, s: System, q: Tables, r: System)
    requires Sized(k) && Sized(q) && AllRecorded(k, s) && |r.consoles| == |s.consoles|
    requires forall t :: 0 <= t < |s.consoles| ==> r.consoles[t].stack == s.consoles[t].stack
    requires forall x :: 0 <= x < PROCESSES ==> q.pcbs[x] == k.pcbs[x].(own := q.pcbs[x].own)
    ensures AllRecorded(q, r)
  {
    forall u, i | At(r, u, i) ensures Recorded(q, r, u, i) {
      assert At(s, u, i) && Recorded(k, s, u, i);
    }
  }

  function Resume(s: System, t: nat): System
    requires t < |s.consoles|
  {
    s.(consoles := s.consoles[t := s.consoles[t].(parked := None)], running := t)
  }

  /** Handing the processor to the current process of the next terminal. */
  lemma ResumeRepresents(k: Tables, s: System, t: nat, q: Tables)
    requires Represents(k, s) && Booted(s) && t < TERMINALS
    requires forall u :: 0 <= u < TERMINALS ==> s.consoles[u].parked.Some?
    requires var pid := k.terminals[t].curPid;
             && 0 <= pid < PROCESSES
             && q == k.(activeTid := t, currPid := pid, currParentPid := k.pcbs[pid].parentPid,
                        processPage := ProcessEntry(pid), esp0 := KernelStack(pid),
                        videoPage := VideoEntry(VideoOf(t, k.displayed)))
    ensures Represents(q, Resume(s, t))
    ensures k.pcbs[k.terminals[t].curPid].own == s.consoles[t].parked.value
  {
    hide ProcessOk, AllRecorded;
    var r := Resume(s, t);
    assert TerminalRecorded(k, s, t);
    SamePidsOk(s, r);
    SameStacksRecorded(k, s, q, r);
    ResumeTerminals(k, s, t, q);
  }

  lemma ResumeTerminals(k: Tables, s: System, t: nat, q: Tables)
    requires Sized(k) && Sized(q) && |s.consoles| == TERMINALS && t < TERMINALS && TerminalsRecorded(k, s)
    requires q.terminals == k.terminals && q.pcbs == k.pcbs
    ensures TerminalsRecorded(q, Resume(s, t))
  {
    forall u | 0 <= u < TERMINALS ensures TerminalRecorded(q, Resume(s, t), u) {
      assert TerminalRecorded(k, s, u);
    }
  }

  /** The tick that moves the boot on to the next terminal. */
  lemma AdvanceRepresents(k: Tables, s: System)
    requires Represents(k, s) && !Booted(s) && s.consoles[s.shellTid].stack != []
    ensures Represents(k.(activeTid := s.shellTid, shellTid := s.shellTid + 1),
                       s.(running := s.shellTid, shellTid := s.shellTid + 1))
  {
    var q, r := k.(activeTid := s.shellTid, shellTid := s.shellTid + 1),
      s.(running := s.shellTid, shellTid := s.shellTid + 1);
    SamePidsOk(s, r);
    SameStacksRecorded(k, s, q, r);
    forall u | 0 <= u < TERMINALS ensures TerminalRecorded(q, r, u) {
      assert TerminalRecorded(k, s, u);
    }
  }

  lemma PowerOnRepresents(k: Tables)
    requires Sized(k)
    requires forall p :: 0 <= p < PROCESSES ==> k.live[p] == 0 && k.pcbs[p].rtcFreq == 0 && k.pcbs[p].rtcCounter == 0
    requires forall t :: 0 <= t < TERMINALS ==> k.terminals[t] == Terminal(-1, BufferOf(t))
    requires k.activeTid == k.shellTid == k.displayed == 0
    ensures Represents(k, PowerOn())
  {
    forall t | 0 <= t < TERMINALS ensures TerminalRecorded(k, PowerOn(), t) {
    }
  }

  /** A call that rewrites only the caller's own descriptors and clock. */
  lemma OwnRepresents(k: Tables, s: System, fds: seq<Descriptor>, op: ClockOp)
    requires Represents(k, s) && Booted(s) && TableOk(fds) && (op.SetRate? ==> op.ticks > 0)
    ensures 0 <= k.currPid < PROCESSES
    ensures Represents(OwnTables(k, fds, op), OwnStep(s, fds, op))
  {
    PoppedParent(k, s);
    OwnOk(s, fds, op);
    SetTopRepresents(k, s, Clock(Top(s).(fds := fds), op), OwnTables(k, fds, op));
  }

  lemma OwnOk(s: System, fds: seq<Descriptor>, op: ClockOp)
    requires Ok(s) && Booted(s) && TableOk(fds) && (op.SetRate? ==> op.ticks > 0)
    ensures ProcessOk(Clock(Top(s).(fds := fds), op))
  {
    assert At(s, s.running, |s.consoles[s.running].stack| - 1);
  }

  function OwnTables(k: Tables, fds: seq<Descriptor>, op: ClockOp): Tables
    requires Sized(k) && 0 <= k.currPid < PROCESSES
  {
    var p := k.pcbs[k.currPid];
    var freq := match op case OpenClock => 512 case CloseClock => 0 case SetRate(ticks) => ticks case _ => p.rtcFreq;
    k.(pcbs := k.pcbs[k.currPid := p.(fds := fds, rtcFreq := freq,
         rtcCounter := if op == CloseClock || op == ClearCounter then 0 else p.rtcCounter)])
  }

  /** The current PCB holds the running process's own table, arguments and clock. */
  lemma CurrentRecord(k: Tables, s: System)
    requires Represents(k, s) && Booted(s)
    ensures 0 <= k.currPid < PROCESSES
    ensures var p := k.pcbs[k.currPid];
            p.fds == TopTable(s) && p.args == Top(s).args && p.rtcFreq == Top(s).rtcFreq
              && p.rtcCounter == Top(s).rtcCounter
    ensures ProcessOk(Top(s))
  {
    PoppedParent(k, s);
    assert At(s, s.running, |s.consoles[s.running].stack| - 1);
  }
}
