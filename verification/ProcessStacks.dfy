// What the process tables mean: each of the three terminals runs a stack of processes, the newest on top;
// one terminal is running and the tops of the other two are parked with the context to resume them.
module ProcessStacks {
  import opened Bytes
  import opened Descriptors

  const PROCESSES: nat := 6
  const TERMINALS: nat := 3
  const ARGS: nat := 128

  /** A saved stack pointer and frame pointer; nothing is ever computed from them. */
  datatype Context = Context(esp: int, ebp: int)

  datatype Process = Process(pid: nat, returnTo: Context, fds: seq<Descriptor>, args: seq<Byte>,
                             rtcFreq: int, rtcCounter: int)

  datatype Console = Console(stack: seq<Process>, parked: Option<Context>)

  datatype System = System(consoles: seq<Console>, running: nat, displayed: nat, shellTid: nat)

  function NoArgs(): (r: seq<Byte>)
    ensures |r| == ARGS && NUL in r
  {
    assert seq(ARGS, _ => NUL)[0] == NUL;
    seq(ARGS, _ => NUL)
  }

  predicate At(s: System, t: int, i: int) {
    0 <= t < |s.consoles| && 0 <= i < |s.consoles[t].stack|
  }

  function Proc(s: System, t: int, i: int): Process
    requires At(s, t, i)
  {
    s.consoles[t].stack[i]
  }

  ghost predicate Live(s: System, pid: int) {
    exists t, i :: At(s, t, i) && Proc(s, t, i).pid == pid
  }

  ghost predicate Booted(s: System) {
    s.shellTid == TERMINALS
  }

  /** No pid is used twice, in one stack or across stacks. */
  ghost predicate Distinct(s: System) {
    forall t, i, u, j :: At(s, t, i) && At(s, u, j) && Proc(s, t, i).pid == Proc(s, u, j).pid ==> t == u && i == j
  }

  /** An argument buffer holds a string. */
  predicate ArgsOk(args: seq<Byte>) {
    |args| == ARGS && NUL in args
  }

  ghost predicate ProcessOk(p: Process) {
    && p.pid < PROCESSES && TableOk(p.fds) && ArgsOk(p.args)
    && 0 <= p.rtcCounter && (p.rtcFreq == 0 ==> p.rtcCounter == 0)
  }

  /** How far the boot has got: shells 0..shellTid-1 run, shell shellTid may have just started. */
  ghost predicate BootOrder(s: System)
    requires |s.consoles| == TERMINALS
  {
    && (forall t :: 0 <= t < TERMINALS ==> |s.consoles[t].stack| <= 1)
    && (forall t :: 0 <= t < s.shellTid && t < TERMINALS ==> s.consoles[t].stack != [])
    && (forall t :: s.shellTid < t < TERMINALS ==> s.consoles[t].stack == [])
    && (s.shellTid < TERMINALS ==>
          s.running == if s.consoles[s.shellTid].stack == [] && s.shellTid > 0 then s.shellTid - 1 else s.shellTid)
  }

  ghost predicate Ok(s: System) {
    && |s.consoles| == TERMINALS && s.running < TERMINALS && s.displayed < TERMINALS && s.shellTid <= TERMINALS
    && (forall t, i :: At(s, t, i) ==> ProcessOk(Proc(s, t, i)))
    && (forall t :: At(s, t, 0) ==> Proc(s, t, 0).pid == t)
    && Distinct(s)
    && (forall t :: At(s, t, 0) && t != s.running ==> s.consoles[t].parked.Some?)
    && (if Booted(s) then forall t :: 0 <= t < TERMINALS ==> s.consoles[t].stack != [] else BootOrder(s))
  }

  ghost function PowerOn(): (s: System)
    ensures Ok(s) && !Booted(s)
  {
    hide ProcessOk;
    System([Console([], None), Console([], None), Console([], None)], 0, 0, 0)
  }

  // ---- Steps ----

  function Top(s: System): Process
    requires s.running < |s.consoles| && s.consoles[s.running].stack != []
  {
    var stack := s.consoles[s.running].stack;
    stack[|stack| - 1]
  }

  /** The running process's own descriptor table. */
  ghost function TopTable(s: System): (fds: seq<Descriptor>)
    requires Ok(s) && Booted(s)
    ensures TableOk(fds)
  {
    assert At(s, s.running, |s.consoles[s.running].stack| - 1);
    Top(s).fds
  }

  /** The running process rewrites its own descriptors and clock. */
  ghost function OwnStep(s: System, fds: seq<Descriptor>, op: ClockOp): System
    requires Ok(s) && Booted(s)
  {
    SetTop(s, Clock(Top(s).(fds := fds), op))
  }

  function SetTop(s: System, p: Process): System
    requires s.running < |s.consoles| && s.consoles[s.running].stack != []
  {
    var c := s.consoles[s.running];
    s.(consoles := s.consoles[s.running := c.(stack := c.stack[..|c.stack| - 1] + [p])])
  }

  /** A call on descriptors or the clock changes no process but the caller. */
  lemma OwnIsPrivate(s: System, fds: seq<Descriptor>, op: ClockOp, t: nat, i: nat)
    requires Ok(s) && Booted(s) && At(s, t, i) && !(t == s.running && i == |s.consoles[t].stack| - 1)
    ensures At(OwnStep(s, fds, op), t, i) && Proc(OwnStep(s, fds, op), t, i) == Proc(s, t, i)
    ensures Top(OwnStep(s, fds, op)) == Clock(Top(s).(fds := fds), op)
  {
  }

  /** The lowest pid from p on that no process has, or -1. */
  ghost function FreePid(s: System, p: nat): (r: int)
    requires p <= PROCESSES
    ensures r == -1 || (p <= r < PROCESSES && !Live(s, r))
    ensures forall q :: p <= q < (if r == -1 then PROCESSES else r) ==> Live(s, q)
    decreases PROCESSES - p
  {
    if p == PROCESSES then -1 else if Live(s, p) then FreePid(s, p + 1) else p
  }

  function NewProcess(pid: nat, caller: Context, args: seq<Byte>): Process {
    Process(pid, caller, FRESH_TABLE, args, 0, 0)
  }

  /** A new process goes on top of terminal t, which now runs. */
  function Push(s: System, t: nat, p: Process): System
    requires t < |s.consoles|
  {
    s.(consoles := s.consoles[t := Console(s.consoles[t].stack + [p], None)], running := t)
  }

  function Park(s: System, t: nat, context: Context): System
    requires t < |s.consoles|
  {
    s.(consoles := s.consoles[t := s.consoles[t].(parked := Some(context))])
  }

  /** What a process does to its own clock. */
  datatype ClockOp = Keep | OpenClock | CloseClock | SetRate(ticks: nat) | ClearCounter

  function Clock(p: Process, op: ClockOp): Process {
    match op
    case Keep => p
    case OpenClock => p.(rtcFreq := 512)
    case CloseClock => p.(rtcFreq := 0, rtcCounter := 0)
    case SetRate(ticks) => p.(rtcFreq := ticks)
    case ClearCounter => p.(rtcCounter := 0)
  }

  function Interrupted(p: Process): Process {
    if p.rtcFreq == 0 then p else p.(rtcCounter := p.rtcCounter + 1)
  }

  function InterruptedStack(stack: seq<Process>): (r: seq<Process>)
    ensures |r| == |stack| && forall i :: 0 <= i < |stack| ==> r[i] == Interrupted(stack[i])
  {
    seq(|stack|, i requires 0 <= i < |stack| => Interrupted(stack[i]))
  }

  datatype Event =
    | Execute(caller: Context, program: Option<seq<Byte>>)  // a loadable program with its argument bytes, or none
    | Halt(restart: Context)
    | Tick(preempted: Context, launch: Context)
    | Display(tid: nat)
    | Own(fds: seq<Descriptor>, op: ClockOp)                // a call that touches only the caller's own record
    | Look                                                  // a clock reader tests its counter
    | Interrupt                                             // one RTC interrupt

  /** Programs make calls only once all three shells are up; every table they build is a good one. */
  ghost predicate Enabled(s: System, e: Event) {
    match e
    case Execute(_, program) => Booted(s) && (program.Some? ==> ArgsOk(program.value))
    case Halt(_) => Booted(s)
    case Tick(_, _) => true
    case Display(tid) => tid < TERMINALS
    case Own(fds, op) => Booted(s) && TableOk(fds) && (op.SetRate? ==> op.ticks > 0)
    case Look => Booted(s)
    case Interrupt => true
  }

  ghost function ExecuteStep(s: System, caller: Context, program: Option<seq<Byte>>): System
    requires s.running < |s.consoles|
  {
    if program.None? || FreePid(s, 0) == -1 then s
    else Push(s, s.running, NewProcess(FreePid(s, 0), caller, program.value))
  }

  function HaltStep(s: System, restart: Context): System
    requires s.running < |s.consoles| && s.consoles[s.running].stack != []
  {
    var stack := s.consoles[s.running].stack;
    if |stack| == 1 then SetTop(s, NewProcess(stack[0].pid, restart, NoArgs()))
    else s.(consoles := s.consoles[s.running := Console(stack[..|stack| - 1], None)])
  }

  /** The terminal after this one, and after the last the first. */
  function NextTid(t: nat): nat {
    if t + 1 < TERMINALS then t + 1 else 0
  }

  function Next(s: System): nat {
    NextTid(s.running)
  }

  ghost function TickStep(s: System, preempted: Context, launch: Context): System
    requires |s.consoles| == TERMINALS && s.running < TERMINALS
  {
    if s.shellTid >= TERMINALS then
      var parked := Park(s, s.running, preempted);
      parked.(consoles := parked.consoles[Next(s) := parked.consoles[Next(s)].(parked := None)], running := Next(s))
    else if s.consoles[s.shellTid].stack != [] then
      s.(running := s.shellTid, shellTid := s.shellTid + 1)
    else if FreePid(s, 0) == -1 then s
    else
      Push(if s.shellTid == 0 then s else Park(s, s.running, preempted), s.shellTid,
           NewProcess(FreePid(s, 0), launch, NoArgs()))
  }

  function InterruptStep(s: System): (r: System)
    ensures |r.consoles| == |s.consoles| && r.running == s.running && r.displayed == s.displayed
            && r.shellTid == s.shellTid
    ensures forall t :: 0 <= t < |s.consoles| ==>
              r.consoles[t] == s.consoles[t].(stack := InterruptedStack(s.consoles[t].stack))
  {
    s.(consoles := seq(|s.consoles|, t requires 0 <= t < |s.consoles| =>
                     s.consoles[t].(stack := InterruptedStack(s.consoles[t].stack))))
  }

  ghost function Step(s: System, e: Event): System
    requires Ok(s) && Enabled(s, e)
  {
    match e
    case Execute(caller, program) => ExecuteStep(s, caller, program)
    case Halt(restart) => HaltStep(s, restart)
    case Tick(preempted, launch) => TickStep(s, preempted, launch)
    case Display(tid) => s.(displayed := tid)
    case Own(fds, op) => OwnStep(s, fds, op)
    case Look => s
    case Interrupt => InterruptStep(s)
  }

  // ---- Every step keeps the structure ----

  lemma PushOk(s: System, t: nat, p: Process)
    requires Ok(s) && t < TERMINALS && ProcessOk(p) && !Live(s, p.pid)
    requires if Booted(s) then t == s.running else t == s.shellTid && s.consoles[t].stack == [] && p.pid == t
    requires forall u :: At(s, u, 0) && u != t ==> s.consoles[u].parked.Some?
    ensures Ok(Push(s, t, p))
  {
    hide ProcessOk;
    var r := Push(s, t, p);
    var n := |s.consoles[t].stack|;
    assert forall u, i :: At(r, u, i) ==>
             (u == t && i == n && Proc(r, u, i) == p) || (At(s, u, i) && Proc(r, u, i) == Proc(s, u, i));
  }

  lemma ExecuteOk(s: System, caller: Context, program: Option<seq<Byte>>)
    requires Ok(s) && Enabled(s, Execute(caller, program))
    ensures Ok(ExecuteStep(s, caller, program))
  {
    if program.Some? && FreePid(s, 0) != -1 {
      FreshTableOk();
      PushOk(s, s.running, NewProcess(FreePid(s, 0), caller, program.value));
    }
  }

  /** Two systems with the same processes in the same places; their records and parked contexts may differ. */
  ghost predicate SamePids(s: System, r: System) {
    && |s.consoles| == |r.consoles|
    && (forall t :: 0 <= t < |s.consoles| ==> |s.consoles[t].stack| == |r.consoles[t].stack|)
    && (forall t, i :: At(s, t, i) && At(r, t, i) ==> Proc(s, t, i).pid == Proc(r, t, i).pid)
  }

  lemma SamePidsLive(s: System, r: System)
    requires SamePids(s, r)
    ensures forall pid :: Live(r, pid) <==> Live(s, pid)
  {
    forall pid ensures Live(r, pid) <==> Live(s, pid) {
      if Live(s, pid) {
        var t, i :| At(s, t, i) && Proc(s, t, i).pid == pid;
        assert At(r, t, i);
      }
      if Live(r, pid) {
        var t, i :| At(r, t, i) && Proc(r, t, i).pid == pid;
        assert At(s, t, i);
      }
    }
  }

  lemma SamePidsOk(s: System, r: System)
    requires Ok(s) && SamePids(s, r)
    requires r.running < TERMINALS && r.displayed < TERMINALS && r.shellTid <= TERMINALS
    requires forall t, i :: At(r, t, i) ==> ProcessOk(Proc(r, t, i))
    requires forall t :: At(r, t, 0) && t != r.running ==> r.consoles[t].parked.Some?
    requires if Booted(r) then forall t :: 0 <= t < TERMINALS ==> r.consoles[t].stack != [] else BootOrder(r)
    ensures Ok(r)
    ensures forall pid :: Live(r, pid) <==> Live(s, pid)
  {
    assert forall t, i :: At(r, t, i) <==> At(s, t, i);
    SamePidsLive(s, r);
  }

  lemma SetTopOk(s: System, p: Process)
    requires Ok(s) && s.consoles[s.running].stack != [] && ProcessOk(p) && p.pid == Top(s).pid
    ensures Ok(SetTop(s, p))
  {
    var r, n := SetTop(s, p), |s.consoles[s.running].stack| - 1;
    forall u, i | At(r, u, i)
      ensures At(s, u, i) && Proc(r, u, i) == if u == s.running && i == n then p else Proc(s, u, i)
    {
    }
    SamePidsOk(s, r);
  }

  lemma HaltOk(s: System, restart: Context)
    requires Ok(s) && Booted(s)
    ensures Ok(HaltStep(s, restart))
  {
    var stack := s.consoles[s.running].stack;
    var r := HaltStep(s, restart);
    if |stack| == 1 {
      FreshTableOk();
      assert At(s, s.running, 0);
      SetTopOk(s, NewProcess(stack[0].pid, restart, NoArgs()));
    } else {
      assert forall u, i :: At(r, u, i) ==> At(s, u, i) && Proc(r, u, i) == Proc(s, u, i);
    }
  }

  lemma InterruptOk(s: System)
    requires Ok(s)
    ensures Ok(InterruptStep(s))
  {
    var r := InterruptStep(s);
    forall u, i | At(r, u, i) ensures At(s, u, i) && Proc(r, u, i) == Interrupted(Proc(s, u, i)) {
    }
    SamePidsOk(s, r);
  }

  /** While booting, the shells started so far hold exactly the pids below the next terminal's number. */
  lemma BootPid(s: System)
    requires Ok(s) && !Booted(s) && s.consoles[s.shellTid].stack == []
    ensures FreePid(s, 0) == s.shellTid
  {
    forall q | 0 <= q < s.shellTid ensures Live(s, q) {
      assert At(s, q, 0) && Proc(s, q, 0).pid == q;
    }
    forall t, i | At(s, t, i) ensures Proc(s, t, i).pid != s.shellTid {
      assert i == 0 && At(s, t, 0);
    }
  }

  lemma ParkOk(s: System, t: nat, context: Context)
    requires Ok(s) && t < TERMINALS
    ensures Ok(Park(s, t, context))
    ensures forall pid :: Live(Park(s, t, context), pid) <==> Live(s, pid)
  {
    hide ProcessOk;
    SamePidsOk(s, Park(s, t, context));
  }

  lemma TickOk(s: System, preempted: Context, launch: Context)
    requires Ok(s)
    ensures Ok(TickStep(s, preempted, launch))
  {
    var r := TickStep(s, preempted, launch);
    if Booted(s) || s.consoles[s.shellTid].stack != [] {
      forall u, i | At(r, u, i) ensures At(s, u, i) && Proc(r, u, i) == Proc(s, u, i) {
      }
      SamePidsOk(s, r);
    } else {
      BootPid(s);
      FreshTableOk();
      if s.shellTid > 0 {
        ParkOk(s, s.running, preempted);
        PushOk(Park(s, s.running, preempted), s.shellTid, NewProcess(s.shellTid, launch, NoArgs()));
      } else {
        PushOk(s, s.shellTid, NewProcess(s.shellTid, launch, NoArgs()));
      }
    }
  }

  lemma StepOk(s: System, e: Event)
    requires Ok(s) && Enabled(s, e)
    ensures Ok(Step(s, e))
  {
    match e
    case Execute(caller, program) => ExecuteOk(s, caller, program);
    case Halt(restart) => HaltOk(s, restart);
    case Tick(preempted, launch) => TickOk(s, preempted, launch);
    case Display(tid) =>
      SamePidsOk(s, s.(displayed := tid));
    case Own(fds, op) =>
      assert At(s, s.running, |s.consoles[s.running].stack| - 1);
      SetTopOk(s, Clock(Top(s).(fds := fds), op));
    case Look =>
    case Interrupt => InterruptOk(s);
  }
}
