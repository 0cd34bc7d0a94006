// What can happen to the kernel, each as one step of the process machine and of the devices: interrupts, keystrokes and
// calls by the running program.
module KernelCalls {
  import opened Bytes
  import opened CStrings
  import opened Descriptors
  import opened ProcessStacks
  import opened KernelTables
  import opened Kernel
  import opened SystemCall
  import opened Scheduling
  import opened FileCalls
  import opened Frequencies
  import opened Rtc
  import opened Runs
  import opened Screen
  import opened Terminals
  import opened Typewriters
  import L = LineEditing
  import K = Keyboard
  import SequentialReads
  import FS = FileSystem

  /** A timer, clock or keyboard interrupt, or a call by the running program. */
  datatype Call =
    | Timer(preempted: Context, launch: Context)
    | Clock
    | KeyCall(code: Byte)
    | ExecuteCall(command: Option<seq<Byte>>, caller: Context)
    | HaltCall(exitCode: Byte, restart: Context)
    | OpenCall(name: Option<seq<Byte>>)
    | CloseCall(fd: int)
    | ReadCall(fd: int, count: nat)
    | RtcWriteCall(buf: Option<seq<Byte>>, nbytes: int)
    | PrintCall(buffer: Option<seq<Byte>>, nbytes: int)

  /** Arguments the code may be called with: strings are NUL-terminated, buffers long enough, descriptor 8 not used. */
  predicate Proper(call: Call) {
    match call
    case ExecuteCall(command, _) => command.Some? ==> NUL in command.value
    case OpenCall(name) => name.Some? ==> NUL in name.value
    case CloseCall(fd) => fd != OPEN_FILES
    case ReadCall(fd, nbytes) => fd != OPEN_FILES && nbytes < 0x8000_0000
    case RtcWriteCall(buf, nbytes) => buf.Some? && nbytes == 4 ==> |buf.value| >= 4
    case PrintCall(buffer, nbytes) => buffer.Some? ==> nbytes <= |buffer.value|
    case _ => true
  }

  predicate ByProgram(call: Call) {
    !call.Timer? && !call.Clock? && !call.KeyCall?
  }

  /** No program runs, and so none calls, before the three shells are up; no key is struck before the first is. */
  ghost predicate CanHappen(s: System, call: Call) {
    (ByProgram(call) ==> Booted(s)) && (call.KeyCall? ==> Started(s))
  }

  /** The driver that a read on this descriptor of the running program goes to, if any. */
  ghost function DriverOn(s: System, fd: int): Option<Driver>
    requires Ok(s) && Booted(s)
  {
    if SlotOf(TopTable(s), fd).Some? then SlotOf(TopTable(s), fd).value.driver else None
  }

  ghost predicate Reads(s: System, call: Call, driver: Driver)
    requires Ok(s)
  {
    Booted(s) && call.ReadCall? && DriverOn(s, call.fd) == Some(driver)
  }

  // ---- The devices, and who is in the middle of a read ----

  /**
   * Which terminals' clock readers have got past their loop, what has been typed, the three consoles, and the place in
   * the directory that its next read returns.
   */
  datatype Side = Side(past: seq<bool>, typing: Typewriter, pictures: seq<Screen>, place: nat)

  ghost predicate SideOk(x: Side) {
    && |x.past| == TERMINALS && InOrder(x.typing) && |x.pictures| == TERMINALS
    && forall t :: 0 <= t < TERMINALS ==> OnScreen(x.pictures[t])
  }

  /** The devices hold what has been typed and the three consoles, and the kernel the place in the directory. */
  ghost predicate Shows(k: Kernel, b: K.Keyboard, x: Side)
    requires Devices(k, b)
    reads k, k.processArray, k.pcbArray, k.terminals, k.screens, k.screens.Memory(), b, b.Memory()
  {
    && SideOk(x) && x.typing == TypewriterOf(k, b) && x.place == k.dirReadnum
    && forall t :: 0 <= t < TERMINALS ==> x.pictures[t] == k.screens.Console(t)
  }

  /**
   * The two ways in which the code writes past what it may write to: a read that puts its newline behind a saved line
   * of 128 bytes, and an echo that takes the cursor off the screen.
   */
  ghost predicate Overruns(s: System, x: Side, call: Call)
    requires Ok(s) && SideOk(x)
  {
    || (Reads(s, call, Stdin) && x.typing.entered[s.running] && |x.typing.saved| > L.LINE)
    || (call.KeyCall? && !OnScreen(Echoed(x.pictures[x.typing.desk.front], EchoGiven(x.typing, call.code))))
  }

  /**
   * rtc_read takes many turns: it looks at its counter until that has reached its target, and then, whatever has
   * happened meanwhile, clears it. The flags tell which terminals' readers have got past the loop.
   */
  ghost function PastAfter(s: System, call: Call, past: seq<bool>): (r: seq<bool>)
    requires Ok(s) && |past| == TERMINALS
    ensures |r| == TERMINALS
  {
    if !ByProgram(call) then past
    else past[s.running := Reads(s, call, Rtc) && !past[s.running] && Reached(s, s.running)]
  }

  /** A key changes what has been typed; so does a read that Enter has let through. */
  ghost function TypingAfter(s: System, call: Call, w: Typewriter): (r: Typewriter)
    requires Ok(s) && InOrder(w)
    ensures InOrder(r)
  {
    if call.KeyCall? then Acted(w, Press(call.code))
    else if Reads(s, call, Stdin) && w.entered[s.running] then Acted(w, Fetch(s.running, call.count))
    else w
  }

  /** A terminal's console changes by what its own programs print, and while it is in front by the echo of keys. */
  ghost function PictureAfter(s: System, call: Call, x: Side, t: nat): (r: Screen)
    requires Ok(s) && SideOk(x) && Proper(call) && !Overruns(s, x, call) && t < TERMINALS
    ensures OnScreen(r)
  {
    if call.PrintCall? then Wrote(x.pictures[t], t, s.running, call.buffer, call.nbytes)
    else if call.KeyCall? then AfterKey(x.pictures[t], t, x.typing, call.code)
    else x.pictures[t]
  }

  /** There is one place in the directory for the whole machine: opening resets it, and every read moves it on. */
  ghost function PlaceAfter(image: seq<Byte>, s: System, call: Call, place: nat): nat
    requires FilesReadable(image) && Ok(s)
  {
    if OpensDirectory(image, s, call) then 0
    else if Reads(s, call, Directory) && place < FS.EntryCount(image) then place + 1
    else place
  }

  ghost predicate OpensDirectory(image: seq<Byte>, s: System, call: Call)
    requires FilesReadable(image) && Ok(s)
  {
    Booted(s) && call.OpenCall? &&
    var o := Opening(image, TopTable(s), call.name);
    o.fd >= 2 && o.fds[o.fd].driver == Some(Directory)
  }

  ghost function SideAfter(image: seq<Byte>, s: System, call: Call, x: Side): (r: Side)
    requires FilesReadable(image) && Ok(s) && SideOk(x) && Proper(call) && !Overruns(s, x, call)
    ensures SideOk(r)
  {
    Side(PastAfter(s, call, x.past), TypingAfter(s, call, x.typing),
         [PictureAfter(s, call, x, 0), PictureAfter(s, call, x, 1), PictureAfter(s, call, x, 2)],
         PlaceAfter(image, s, call, x.place))
  }

  // ---- Calls and steps ----

  /** The bytes a read of an open file delivers. */
  ghost function Chunk(image: seq<Byte>, d: Descriptor, nbytes: nat): seq<Byte>
    requires FilesReadable(image) && FilePlace(d)
  {
    FS.Slice(FileOf(image, d), d.position, nbytes)
  }

  /** The bytes a read of the directory delivers: the name of the entry at its place, cut, or nothing past the last. */
  ghost function NameChunk(image: seq<Byte>, place: nat, nbytes: nat): seq<Byte>
    requires FS.WellFormed(image)
  {
    if place >= FS.EntryCount(image) then [] else Cut(Text(FS.Entry(image, place)), nbytes)
  }

  /** The step that a read is. */
  ghost function ReadEvent(image: seq<Byte>, s: System, fd: int, nbytes: nat, past: bool): Event
    requires FilesReadable(image) && Ok(s) && Booted(s)
  {
    match DriverOn(s, fd)
    case Some(Regular) => Own(Advanced(TopTable(s), fd, |Chunk(image, TopTable(s)[fd], nbytes)|), Keep)
    case Some(Rtc) => if past then Own(TopTable(s), ClearCounter) else Look
    case _ => Own(TopTable(s), Keep)
  }

  /** The step of the machine that a call is, in state s. Only execute's check of a very short file leaves a choice. */
  ghost predicate Answers(image: seq<Byte>, s: System, x: Side, call: Call, e: Event)
    requires FilesReadable(image) && Ok(s) && SideOk(x) && Proper(call) && CanHappen(s, call)
  {
    match call
    case Timer(preempted, launch) => e == Tick(preempted, launch)
    case Clock => e == Interrupt
    case KeyCall(code) => e == Display(Acted(x.typing, Press(code)).desk.front)
    case ExecuteCall(command, caller) =>
      && e.Execute? && e.caller == caller
      && (Loadable(image, command) ==> e.program.Some?)
      && (e.program.Some? ==> MayLoad(image, command) && e.program.value == ProgramArgs(command.value))
    case HaltCall(_, restart) => e == Event.Halt(restart)
    case OpenCall(name) => e == Own(Opening(image, TopTable(s), name).fds, Opening(image, TopTable(s), name).op)
    case CloseCall(fd) => e == Own(Closing(TopTable(s), fd).fds, Closing(TopTable(s), fd).op)
    case ReadCall(fd, nbytes) => e == ReadEvent(image, s, fd, nbytes, x.past[s.running])
    case RtcWriteCall(buf, nbytes) =>
      e == Own(TopTable(s), if Target(buf, nbytes).Some? then SetRate(Target(buf, nbytes).value) else Keep)
    case PrintCall(_, _) => e == Own(TopTable(s), Keep)
  }

  /**
   * What comes of a call or interrupt besides the step: the context a timer interrupt loads, where control goes after a
   * halt, the bytes a read delivers, or none while it waits.
   */
  datatype Result =
    | Loads(context: Option<Context>)
    | Resumes(to: Resumption)
    | Delivers(bytes: Option<seq<Byte>>)
    | Fails
    | Plain

  ghost predicate Gives(image: seq<Byte>, s: System, x: Side, call: Call, result: Result)
    requires FilesReadable(image) && Ok(s) && SideOk(x) && Proper(call) && CanHappen(s, call)
  {
    match call
    case Timer(_, _) => result == Loads(if Booted(s) then s.consoles[Next(s)].parked else None)
    case HaltCall(exitCode, _) =>
      result == Resumes(if |s.consoles[s.running].stack| == 1 then FreshShell
                        else ReturnTo(Top(s).returnTo, exitCode as int))
    case ReadCall(fd, nbytes) => (
      match DriverOn(s, fd)
      case Some(Regular) => result == Delivers(Some(Chunk(image, TopTable(s)[fd], nbytes)))
      case Some(Stdin) =>
        result == Delivers(if x.typing.entered[s.running] then Some(Handed(x.typing, nbytes)) else None)
      case Some(Rtc) => result == Delivers(if x.past[s.running] then Some([]) else None)
      case Some(Directory) => result == Delivers(Some(NameChunk(image, x.place, nbytes)))
      case _ => result == Fails
    )
    case _ => result == Plain
  }

  // ---- Each call on the kernel ----

  /** The dispatch of read: does this call go to terminal_read? */
  method GoesToKeyboard(k: Kernel, call: Call) returns (line: bool)
    requires k.Valid() && CanHappen(k.sys, call)
    ensures line <==> Reads(k.sys, call, Stdin)
  {
    line := false;
    if call.ReadCall? {
      line := AtDriver(k, call.fd, Stdin);
    }
  }

  method AtDriver(k: Kernel, fd: int, driver: Driver) returns (at: bool)
    requires k.Valid() && Booted(k.sys)
    ensures at <==> DriverOn(k.sys, fd) == Some(driver)
  {
    hide AllRecorded, LiveRecorded, TerminalsRecorded, Current, ProcessOk;
    CurrentRecord(k.View(), k.sys);
    var fds := k.pcbArray[k.currPid].fds;
    at := 0 <= fd < OPEN_FILES && fds[fd].inUse && fds[fd].driver == Some(driver);
  }

  /** The calls that touch the process tables alone. */
  method ApplyToTables(k: Kernel, call: Call, past: seq<bool>, ghost x: Side)
    returns (ghost e: Event, next: seq<bool>, result: Result)
    requires FilesReadable(k.image) && Sound(k.image) && k.Valid() && Proper(call) && CanHappen(k.sys, call)
    requires SideOk(x) && x.past == past && x.place == k.dirReadnum
    requires !call.KeyCall? && !call.PrintCall? && !Reads(k.sys, call, Stdin)
    modifies k.Tables()
    ensures k.Valid() && Enabled(old(k.sys), e) && k.sys == Step(old(k.sys), e)
    ensures Answers(k.image, old(k.sys), x, call, e) && Gives(k.image, old(k.sys), x, call, result)
    ensures next == PastAfter(old(k.sys), call, past)
    ensures k.dirReadnum == PlaceAfter(k.image, old(k.sys), call, old(k.dirReadnum))
  {
    hide AllRecorded, LiveRecorded, TerminalsRecorded, Current, ProcessOk, Distinct, BootOrder, TickStep, InterruptStep,
         HaltStep, OwnStep, ExecuteStep, FS.Lookup, FS.BlocksValid, ReadEvent, Reached, Opening, Closing, Target,
         Loadable, MayLoad, ProgramArgs, Magic, DriverOn;
    next, result := past, Plain;
    if call.ReadCall? {
      e, next, result := ApplyRead(k, call.fd, call.count, past, x);
      return;
    }
    if ByProgram(call) {
      next := past[k.activeTid := false];
    }
    match call
    case Timer(preempted, launch) =>
      var loaded := PitHandler(k, preempted, launch);
      e, result := Tick(preempted, launch), Loads(loaded);
    case Clock =>
      RtcHandler(k);
      e := Interrupt;
    case ExecuteCall(command, caller) =>
      e := ApplyExecute(k, command, caller);
    case HaltCall(exitCode, restart) =>
      var r := SystemCall.Halt(k, exitCode, restart);
      e, result := Event.Halt(restart), Resumes(r);
    case OpenCall(name) =>
      e := ApplyOpen(k, name);
    case CloseCall(fd) =>
      e := ApplyClose(k, fd);
    case RtcWriteCall(buf, nbytes) =>
      e := ApplyRtcWrite(k, buf, nbytes);
  }

  method ApplyExecute(k: Kernel, command: Option<seq<Byte>>, caller: Context) returns (ghost e: Event)
    requires Sound(k.image) && k.Valid() && Booted(k.sys) && (command.Some? ==> NUL in command.value)
    modifies k.Tables()
    ensures k.Valid() && Enabled(old(k.sys), e) && k.sys == Step(old(k.sys), e)
    ensures e.Execute? && e.caller == caller
    ensures Loadable(k.image, command) ==> e.program.Some?
    ensures e.program.Some? ==> MayLoad(k.image, command) && e.program.value == ProgramArgs(command.value)
    ensures k.dirReadnum == old(k.dirReadnum)
  {
    hide AllRecorded, LiveRecorded, TerminalsRecorded, Current, ProcessOk, FilesReadable, Loadable, MayLoad;
    var pid;
    ghost var program;
    pid, program := SystemCall.Execute(k, command, caller);
    if command.Some? {
      ProgramStrings(command.value);
    }
    e := Event.Execute(caller, program);
  }

  method ApplyOpen(k: Kernel, name: Option<seq<Byte>>) returns (ghost e: Event)
    requires FilesReadable(k.image) && k.Valid() && Booted(k.sys) && (name.Some? ==> NUL in name.value)
    modifies k.Tables()
    ensures k.Valid() && Enabled(old(k.sys), e) && k.sys == Step(old(k.sys), e)
    ensures var o := Opening(k.image, TopTable(old(k.sys)), name); e == Own(o.fds, o.op)
    ensures k.dirReadnum == PlaceAfter(k.image, old(k.sys), OpenCall(name), old(k.dirReadnum))
  {
    hide AllRecorded, LiveRecorded, TerminalsRecorded, Current, Ok, FS.WellFormed, Opening, OwnStep, TopTable;
    ghost var o := Opening(k.image, TopTable(k.sys), name);
    OpeningOk(k.image, TopTable(k.sys), name);
    e := Own(o.fds, o.op);
    var fd := Open(k, name);
  }

  method ApplyClose(k: Kernel, fd: int) returns (ghost e: Event)
    requires FS.WellFormed(k.image) && k.Valid() && Booted(k.sys) && fd != OPEN_FILES
    modifies k.Tables()
    ensures k.Valid() && Enabled(old(k.sys), e) && k.sys == Step(old(k.sys), e)
    ensures var c := Closing(TopTable(old(k.sys)), fd); e == Own(c.fds, c.op)
    ensures k.dirReadnum == old(k.dirReadnum)
  {
    hide AllRecorded, LiveRecorded, TerminalsRecorded, Current, Ok, Closing, OwnStep, TopTable;
    ghost var c := Closing(TopTable(k.sys), fd);
    ClosingOk(TopTable(k.sys), fd);
    e := Own(c.fds, c.op);
    var r := Close(k, fd);
  }

  method ApplyRtcWrite(k: Kernel, buf: Option<seq<Byte>>, nbytes: int) returns (ghost e: Event)
    requires FS.WellFormed(k.image) && k.Valid() && Booted(k.sys) && (buf.Some? && nbytes == 4 ==> |buf.value| >= 4)
    modifies k.Tables()
    ensures k.Valid() && Enabled(old(k.sys), e) && k.sys == Step(old(k.sys), e)
    ensures var t := Target(buf, nbytes);
            e == Own(TopTable(old(k.sys)), if t.Some? then SetRate(t.value) else Keep)
    ensures k.dirReadnum == old(k.dirReadnum)
  {
    hide AllRecorded, LiveRecorded, TerminalsRecorded, Current, ProcessOk, FreqToRate, FS.LittleEndian;
    ghost var s, t := k.sys, Target(buf, nbytes);
    var r := RtcWrite(k, buf, nbytes);
    SequentialReads.OwnNothing(s);
    e := Own(TopTable(s), if t.Some? then SetRate(t.value) else Keep);
  }

  /** read, but of the keyboard: a file's next bytes; one turn of rtc_read; else nothing the tables record. */
  method ApplyRead(k: Kernel, fd: int, nbytes: nat, past: seq<bool>, ghost x: Side)
    returns (ghost e: Event, next: seq<bool>, result: Result)
    requires FilesReadable(k.image) && k.Valid() && Booted(k.sys) && Proper(ReadCall(fd, nbytes))
    requires SideOk(x) && x.past == past && x.place == k.dirReadnum && DriverOn(k.sys, fd) != Some(Stdin)
    modifies k.Tables()
    ensures k.Valid() && Enabled(old(k.sys), e) && k.sys == Step(old(k.sys), e)
    ensures e == ReadEvent(k.image, old(k.sys), fd, nbytes, past[old(k.sys.running)])
    ensures Gives(k.image, old(k.sys), x, ReadCall(fd, nbytes), result)
    ensures next == PastAfter(old(k.sys), ReadCall(fd, nbytes), past)
    ensures k.dirReadnum == PlaceAfter(k.image, old(k.sys), ReadCall(fd, nbytes), old(k.dirReadnum))
  {
    hide AllRecorded, LiveRecorded, TerminalsRecorded, Current, ProcessOk, OwnStep, FS.WellFormed, NameDelivered,
         Got, Returned, Chunk, Distinct, BootOrder, Reached;
    ghost var s := k.sys;
    e := ReadEvent(k.image, s, fd, nbytes, past[s.running]);
    EnoughRoom(k.image, s, fd, nbytes);
    SequentialReads.OwnNothing(s);
    var clock := AtDriver(k, fd, Rtc);
    if clock {
      result := Delivers(if past[k.activeTid] then Some([]) else None);
      next := ClockTurn(k, past);
    } else {
      result := ReadBytes(k, fd, nbytes);
      next := past[k.activeTid := false];
    }
  }

  /** A read of a file or the directory, and the bytes it puts into the buffer. */
  method ReadBytes(k: Kernel, fd: int, nbytes: nat) returns (result: Result)
    requires FilesReadable(k.image) && k.Valid() && Booted(k.sys) && Proper(ReadCall(fd, nbytes))
    requires DriverOn(k.sys, fd) != Some(Stdin) && DriverOn(k.sys, fd) != Some(Rtc)
    modifies k`sys, k`dirReadnum, k.pcbArray
    ensures k.Valid()
    ensures var s, driver := old(k.sys), DriverOn(old(k.sys), fd);
            if driver == Some(Regular) then
              && result == Delivers(Some(Chunk(k.image, TopTable(s)[fd], nbytes)))
              && k.sys == OwnStep(s, Advanced(TopTable(s), fd, |Chunk(k.image, TopTable(s)[fd], nbytes)|), Keep)
            else k.sys == s && if driver == Some(Directory) then
                                 result == Delivers(Some(NameChunk(k.image, old(k.dirReadnum), nbytes)))
                               else result == Fails
    ensures k.dirReadnum == PlaceAfter(k.image, old(k.sys), ReadCall(fd, nbytes), old(k.dirReadnum))
  {
    hide AllRecorded, LiveRecorded, TerminalsRecorded, Current, ProcessOk, OwnStep, FS.WellFormed, Got, Returned, Chunk,
         Distinct, BootOrder, FS.Splice, Text, NameDelivered, NameChunk;
    EnoughRoom(k.image, k.sys, fd, nbytes);
    SlotHasDriver(k.sys, fd);
    Drivers(DriverOn(k.sys, fd));
    ghost var s, place := k.sys, k.dirReadnum;
    var buf := new Byte[nbytes];
    ghost var before := buf[..];
    var r := Read(k, fd, buf, nbytes);
    if DriverOn(s, fd) == Some(Regular) {
      ghost var chunk := Chunk(k.image, TopTable(s)[fd], nbytes);
      FS.SliceBound(FileOf(k.image, TopTable(s)[fd]), TopTable(s)[fd].position, nbytes);
      SequentialReads.SplicedFirst(before, chunk);
      assert buf[..][..|chunk|] == buf[..|chunk|];
    } else if DriverOn(s, fd) == Some(Directory) {
      NamePut(k.image, place, nbytes, before, r.value, buf[..], k.dirReadnum);
      assert buf[..][..r.value] == buf[..r.value];
    }
    result := if r == Some(-1) then Fails else Delivers(Some(buf[..Min(r.value, nbytes)]));
  }

  /** What a read of the directory puts first into a buffer that it may fill. */
  lemma NamePut(image: seq<Byte>, n: nat, nbytes: nat, before: seq<Byte>, r: int, after: seq<Byte>, next: nat)
    requires FS.WellFormed(image) && |before| == nbytes && NameDelivered(image, n, nbytes, before, r, after, next)
    ensures 0 <= r <= nbytes == |after| && after[..r] == NameChunk(image, n, nbytes)
    ensures next == if n < FS.EntryCount(image) then n + 1 else n
  {
    hide Text, FS.WellFormed;
  }

  lemma Drivers(d: Option<Driver>)
    ensures d in {None, Some(Stdin), Some(Stdout), Some(Rtc), Some(Directory), Some(Regular)}
  {
    if d.Some? {
      match d.value
      case Stdin =>
      case Stdout =>
      case Rtc =>
      case Directory =>
      case Regular =>
    }
  }

  lemma SlotHasDriver(s: System, fd: int)
    requires Ok(s) && Booted(s)
    ensures SlotOf(TopTable(s), fd).Some? <==> DriverOn(s, fd).Some?
    ensures SlotOf(TopTable(s), fd).Some? ==> SlotOf(TopTable(s), fd).value.driver == DriverOn(s, fd)
  {
  }

  /** One turn of rtc_read: a look at the counter, or, once past the loop, the reset. */
  method ClockTurn(k: Kernel, past: seq<bool>) returns (next: seq<bool>)
    requires k.Valid() && Booted(k.sys) && |past| == TERMINALS
    modifies k.Tables()
    ensures k.Valid() && k.dirReadnum == old(k.dirReadnum)
    ensures k.sys == if past[old(k.sys.running)] then OwnStep(old(k.sys), TopTable(old(k.sys)), ClearCounter)
              else old(k.sys)
    ensures next == past[old(k.sys.running) := !past[old(k.sys.running)] && Reached(old(k.sys), old(k.sys.running))]
  {
    hide AllRecorded, LiveRecorded, TerminalsRecorded, Current, ProcessOk, OwnStep;
    CurrentRecord(k.View(), k.sys);
    if past[k.activeTid] {
      next := past[k.activeTid := false];
      RtcClear(k);
    } else {
      next := past[k.activeTid := !(k.pcbArray[k.currPid].rtcFreq > k.pcbArray[k.currPid].rtcCounter)];
    }
  }

  lemma EnoughRoom(image: seq<Byte>, s: System, fd: int, nbytes: nat)
    requires FilesReadable(image) && Ok(s) && Booted(s) && nbytes < 0x8000_0000
    ensures Room(image, SlotOf(TopTable(s), fd), nbytes, nbytes)
    ensures var slot := SlotOf(TopTable(s), fd);
            slot.Some? && slot.value.driver == Some(Regular) ==>
              && FilePlace(slot.value)
              && Returned(image, slot.value, nbytes) == |Chunk(image, slot.value, nbytes)|
              && Got(image, slot.value, nbytes) == Chunk(image, slot.value, nbytes)
              && TableOk(Advanced(TopTable(s), fd, Returned(image, slot.value, nbytes)))
  {
    hide FS.WellFormed, Got, Returned, FS.Slice;
    var slot := SlotOf(TopTable(s), fd);
    if slot.Some? && slot.value.driver == Some(Regular) {
      ReadsItsFile(image, slot.value, nbytes);
      PositionStays(image, slot.value, nbytes);
      AdvancedOk(TopTable(s), fd, Returned(image, slot.value, nbytes));
    }
  }

  // ---- Any call ----

  /** The step of a call that leaves the tables as they are. */
  lemma NoStep(image: seq<Byte>, s: System, x: Side, call: Call)
    requires FilesReadable(image) && Ok(s) && Booted(s) && SideOk(x) && Proper(call)
    requires call.PrintCall? || Reads(s, call, Stdin)
    ensures var e := Own(TopTable(s), Keep);
            Enabled(s, e) && Step(s, e) == s && Answers(image, s, x, call, e)
  {
    hide Ok, FilesReadable, TableOk, OwnStep;
    SequentialReads.OwnNothing(s);
  }

  lemma IsOk(k: Kernel)
    requires k.Valid()
    ensures Ok(k.sys) && 0 <= k.sys.running < TERMINALS
  {
  }

  /** The running program's reader is not past its loop after a call that is no read of the clock. */
  method NotPast(k: Kernel, ghost call: Call, past: seq<bool>) returns (next: seq<bool>)
    requires k.Valid() && Booted(k.sys) && ByProgram(call) && |past| == TERMINALS && !Reads(k.sys, call, Rtc)
    ensures next == PastAfter(k.sys, call, past)
  {
    hide AllRecorded, LiveRecorded, TerminalsRecorded, Current, ProcessOk, Reads, Reached;
    next := past[k.activeTid := false];
  }

  method ApplyKey(k: Kernel, b: K.Keyboard, code: Byte, ghost x: Side) returns (ghost e: Event, result: Result)
    requires FilesReadable(k.image) && Ready(k, b) && Ok(k.sys) && SideOk(x) && Shows(k, b, x)
    requires !Overruns(k.sys, x, KeyCall(code))
    modifies k`sys, k`videoPage, k.screens, k.screens.Memory(), b, b.Memory()
    ensures Devices(k, b) && Shows(k, b, SideAfter(k.image, old(k.sys), KeyCall(code), x))
    ensures Enabled(old(k.sys), e) && k.sys == Step(old(k.sys), e)
    ensures Answers(k.image, old(k.sys), x, KeyCall(code), e) && Gives(k.image, old(k.sys), x, KeyCall(code), result)
  {
    hide Represents, Ok, OnScreen, Acted, EchoGiven, Echoed, PastAfter, FilesReadable, Answers, Step, Enabled;
    ghost var s := k.sys;
    KeyStep(k.image, s, x, code);
    e, result := Display(Acted(x.typing, Press(code)).desk.front), Plain;
    KeyboardHandler(k, b, code);
  }

  method ApplyPrint(k: Kernel, b: K.Keyboard, buffer: Option<seq<Byte>>, nbytes: int, past: seq<bool>, ghost x: Side)
    returns (ghost e: Event, next: seq<bool>, result: Result)
    requires FilesReadable(k.image) && Devices(k, b) && Booted(k.sys) && Ok(k.sys) && Proper(PrintCall(buffer, nbytes))
    requires SideOk(x) && Shows(k, b, x) && x.past == past && !Overruns(k.sys, x, PrintCall(buffer, nbytes))
    modifies k.screens`screenX, k.screens`screenY, k.screens.Memory()
    ensures Devices(k, b) && Shows(k, b, SideAfter(k.image, k.sys, PrintCall(buffer, nbytes), x))
    ensures Enabled(k.sys, e) && k.sys == Step(k.sys, e) && next == PastAfter(k.sys, PrintCall(buffer, nbytes), past)
    ensures Answers(k.image, k.sys, x, PrintCall(buffer, nbytes), e)
    ensures Gives(k.image, k.sys, x, PrintCall(buffer, nbytes), result)
  {
    hide Represents, Ok, Wrote, OnScreen, PastAfter, FilesReadable, Answers, Step, Enabled, SideAfter;
    NoStep(k.image, k.sys, x, PrintCall(buffer, nbytes));
    e, result := Own(TopTable(k.sys), Keep), Plain;
    next := NotPast(k, PrintCall(buffer, nbytes), past);
    PrintShown(k.image, k.sys, x, PrintCall(buffer, nbytes));
    var r := WriteStdout(k, b, buffer, nbytes);
  }

  lemma PrintShown(image: seq<Byte>, s: System, x: Side, call: Call)
    requires FilesReadable(image) && Ok(s) && SideOk(x) && Proper(call) && !Overruns(s, x, call) && call.PrintCall?
    ensures var y := SideAfter(image, s, call, x);
            && SideOk(y) && y.typing == x.typing && y.place == x.place
            && forall t :: 0 <= t < TERMINALS ==>
                 y.pictures[t] == Wrote(x.pictures[t], t, s.running, call.buffer, call.nbytes)
  {
    hide Ok, OnScreen, Wrote;
  }

  method ApplyReadLine(k: Kernel, b: K.Keyboard, fd: int, nbytes: nat, past: seq<bool>, ghost x: Side)
    returns (ghost e: Event, next: seq<bool>, result: Result)
    requires FilesReadable(k.image) && Devices(k, b) && Booted(k.sys) && Ok(k.sys) && Proper(ReadCall(fd, nbytes))
    requires SideOk(x) && Shows(k, b, x) && x.past == past && Reads(k.sys, ReadCall(fd, nbytes), Stdin)
    requires !Overruns(k.sys, x, ReadCall(fd, nbytes))
    modifies b`bufferPosition, b`savedBufferPosition, b.Memory()
    ensures Devices(k, b) && Shows(k, b, SideAfter(k.image, k.sys, ReadCall(fd, nbytes), x))
    ensures Enabled(k.sys, e) && k.sys == Step(k.sys, e) && next == PastAfter(k.sys, ReadCall(fd, nbytes), past)
    ensures Answers(k.image, k.sys, x, ReadCall(fd, nbytes), e)
    ensures Gives(k.image, k.sys, x, ReadCall(fd, nbytes), result)
  {
    hide Represents, Ok, OnScreen, Acted, Handed, DriverOn, PastAfter, FilesReadable, Answers, Step, Enabled, SideAfter;
    IsOk(k);
    NoStep(k.image, k.sys, x, ReadCall(fd, nbytes));
    e := Own(TopTable(k.sys), Keep);
    next := NotPast(k, ReadCall(fd, nbytes), past);
    result := TakeLine(k, b, nbytes, x);
    LineTaken(k.image, k.sys, x, ReadCall(fd, nbytes));
  }

  lemma LineTaken(image: seq<Byte>, s: System, x: Side, call: Call)
    requires FilesReadable(image) && Ok(s) && SideOk(x) && Proper(call) && !Overruns(s, x, call)
    requires Reads(s, call, Stdin)
    ensures var y := SideAfter(image, s, call, x);
            && SideOk(y) && y.place == x.place && (forall t :: 0 <= t < TERMINALS ==> y.pictures[t] == x.pictures[t])
            && y.typing == if x.typing.entered[s.running] then Acted(x.typing, Fetch(s.running, call.count))
                 else x.typing
  {
    hide Ok, Acted, OnScreen;
  }

  /** terminal_read into a buffer as large as the code may fill. */
  method TakeLine(k: Kernel, b: K.Keyboard, nbytes: nat, ghost x: Side) returns (result: Result)
    requires Devices(k, b) && Booted(k.sys) && SideOk(x) && Shows(k, b, x) && 0 <= k.sys.running < TERMINALS
    requires x.typing.entered[k.sys.running] ==> |x.typing.saved| <= L.LINE
    modifies b`bufferPosition, b`savedBufferPosition, b.Memory()
    ensures Devices(k, b) && forall t :: 0 <= t < TERMINALS ==> k.screens.Console(t) == x.pictures[t]
    ensures TypewriterOf(k, b) == if x.typing.entered[k.sys.running] then Acted(x.typing, Fetch(k.sys.running, nbytes))
                                  else x.typing
    ensures result == Delivers(if x.typing.entered[k.sys.running] then Some(Handed(x.typing, nbytes)) else None)
  {
    hide Represents, Ok, OnScreen, Acted, Handed;
    var buffer := new Byte[if nbytes < 128 then 128 else nbytes];
    var r := ReadStdin(k, b, buffer, nbytes);
    result := Delivers(if r.Some? then Some(buffer[..r.value]) else None);
  }

  /** All other calls leave what has been typed and the consoles alone. */
  method ApplyElse(k: Kernel, b: K.Keyboard, call: Call, past: seq<bool>, ghost x: Side)
    returns (ghost e: Event, next: seq<bool>, result: Result)
    requires FilesReadable(k.image) && Sound(k.image) && Devices(k, b) && Ok(k.sys) && Proper(call)
             && CanHappen(k.sys, call)
    requires SideOk(x) && Shows(k, b, x) && x.past == past && !Overruns(k.sys, x, call)
    requires !call.KeyCall? && !call.PrintCall? && !Reads(k.sys, call, Stdin)
    modifies k.Tables()
    ensures Devices(k, b) && Shows(k, b, SideAfter(k.image, old(k.sys), call, x))
    ensures Enabled(old(k.sys), e) && k.sys == Step(old(k.sys), e)
    ensures Answers(k.image, old(k.sys), x, call, e) && Gives(k.image, old(k.sys), x, call, result)
    ensures next == PastAfter(old(k.sys), call, past)
  {
    hide AllRecorded, LiveRecorded, TerminalsRecorded, Current, Ok, Answers, Gives, Step, Enabled, FilesReadable, Sound,
         Overruns, PastAfter, Reads, OnScreen;
    e, next, result := ApplyToTables(k, call, past, x);
  }

  /** One call is one step of the machine and of the devices, and gives what it should. */
  method Apply(k: Kernel, b: K.Keyboard, call: Call, past: seq<bool>, ghost x: Side)
    returns (ghost e: Event, next: seq<bool>, result: Result)
    requires FilesReadable(k.image) && Sound(k.image) && Devices(k, b) && Ok(k.sys) && Proper(call)
             && CanHappen(k.sys, call)
    requires SideOk(x) && Shows(k, b, x) && x.past == past && !Overruns(k.sys, x, call)
    modifies k.Tables(), k.screens, k.screens.Memory(), b, b.Memory()
    ensures Devices(k, b) && Enabled(old(k.sys), e) && k.sys == Step(old(k.sys), e)
    ensures Answers(k.image, old(k.sys), x, call, e) && Gives(k.image, old(k.sys), x, call, result)
    ensures Shows(k, b, SideAfter(k.image, old(k.sys), call, x)) && next == PastAfter(old(k.sys), call, past)
  {
    hide Represents, Ok, FilesReadable, Sound, Overruns, PastAfter, SideAfter, Shows, Answers, Gives, Enabled, Step,
         Booted, OnScreen, InOrder;
    var line := GoesToKeyboard(k, call);
    if call.KeyCall? {
      next := past;
      NotByProgram(k.sys, call, past);
      e, result := ApplyKey(k, b, call.code, x);
    } else if call.PrintCall? {
      e, next, result := ApplyPrint(k, b, call.buffer, call.nbytes, past, x);
    } else if line {
      e, next, result := ApplyReadLine(k, b, call.fd, call.count, past, x);
    } else {
      e, next, result := ApplyElse(k, b, call, past, x);
    }
  }

  lemma KeyStep(image: seq<Byte>, s: System, x: Side, code: Byte)
    requires FilesReadable(image) && Ok(s) && SideOk(x) && Started(s)
    ensures var e := Display(Acted(x.typing, Press(code)).desk.front);
            && Enabled(s, e) && Step(s, e) == s.(displayed := e.tid) && Answers(image, s, x, KeyCall(code), e)
  {
    hide Ok, FilesReadable, Struck, OverflowAfter;
  }

  lemma NotByProgram(s: System, call: Call, past: seq<bool>)
    requires Ok(s) && |past| == TERMINALS && !ByProgram(call)
    ensures PastAfter(s, call, past) == past
  {
  }
}
