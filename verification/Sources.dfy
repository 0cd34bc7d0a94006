// Reading an opened file or the clock to its end, as programs that loop over read do.
module Sources {
  import opened Bytes
  import opened CStrings
  import opened Descriptors
  import opened ProcessStacks
  import opened KernelTables
  import opened Kernel
  import opened FileCalls
  import opened Rtc
  import opened SequentialReads
  import FS = FileSystem
  import Runs

  // ---- What opening and reading do to the machine ----

  /** Opening this name fails, or gives a regular file or the clock. */
  ghost predicate NamesASource(image: seq<Byte>, fds: seq<Descriptor>, name: seq<Byte>)
    requires FS.WellFormed(image) && TableOk(fds)
  {
    var o := Opening(image, fds, Some(name));
    o.fd == -1 || (2 <= o.fd && o.fds[o.fd].driver != Some(Directory))
  }

  /** All that reads of a descriptor deliver from now on; those of the clock only wait. */
  ghost function Delivered(image: seq<Byte>, d: Descriptor): seq<Byte>
    requires FilesReadable(image)
  {
    if d.driver == Some(Regular) then FileOf(image, d) else []
  }

  /** How many interrupts the first read of a clock opened in s waits for. */
  function FirstWait(s: System): nat
    requires s.running < |s.consoles| && s.consoles[s.running].stack != []
  {
    StillToCome(Clock(Top(s), OpenClock))
  }

  /** The machine after the running process has opened the clock, got this table, and read the clock once. */
  ghost function ClockRead(s: System, fds: seq<Descriptor>): System
    requires Ok(s) && Booted(s)
  {
    SetTop(AfterInterrupts(s, FirstWait(s)), Top(s).(fds := fds, rtcFreq := 512, rtcCounter := 0))
  }

  /** The same after it has closed the clock again. */
  ghost function ClockWaited(s: System): System
    requires Ok(s) && Booted(s)
  {
    SetTop(AfterInterrupts(s, FirstWait(s)), Top(s).(rtcFreq := 0, rtcCounter := 0))
  }

  /** Interrupts count in the other processes what they count without this one's change. */
  lemma {:induction false} InterruptsElsewhere(s: System, p: Process, n: nat)
    requires Ok(s) && Booted(s) && ProcessOk(p) && p.pid == Top(s).pid
    ensures Ok(SetTop(s, p)) && Booted(SetTop(s, p))
    ensures AfterInterrupts(SetTop(s, p), n) == SetTop(AfterInterrupts(s, n), Runs.Counted(p, n))
  {
    hide ProcessOk, Distinct, BootOrder, InterruptStep;
    SetTopOk(s, p);
    KeepsPlaces(s, n);
    if n == 0 {
      assert Runs.Counted(p, 0) == p;
    } else {
      InterruptsElsewhere(s, p, n - 1);
      InterruptedTop(AfterInterrupts(s, n - 1), Runs.Counted(p, n - 1));
    }
  }

  lemma InterruptedTop(s: System, p: Process)
    requires s.running < |s.consoles| && s.consoles[s.running].stack != []
    ensures InterruptStep(SetTop(s, p)) == SetTop(InterruptStep(s), Interrupted(p))
  {
    var a, b := InterruptStep(SetTop(s, p)), SetTop(InterruptStep(s), Interrupted(p));
    forall t | 0 <= t < |s.consoles| ensures a.consoles[t] == b.consoles[t] {
      assert a.consoles[t].stack == b.consoles[t].stack;
    }
    assert a.consoles == b.consoles;
  }

  lemma SetTwice(s: System, p: Process, q: Process)
    requires s.running < |s.consoles| && s.consoles[s.running].stack != []
    ensures SetTop(SetTop(s, p), q) == SetTop(s, q) && Top(SetTop(s, p)) == p
  {
    var c := SetTop(s, p).consoles[s.running];
    assert c.stack[..|c.stack| - 1] == s.consoles[s.running].stack[..|s.consoles[s.running].stack| - 1];
    assert SetTop(SetTop(s, p), q).consoles == SetTop(s, q).consoles;
  }

  lemma OpenedClock(s: System, fds: seq<Descriptor>)
    requires Ok(s) && Booted(s) && TableOk(fds)
    ensures var now, p := OwnStep(s, fds, OpenClock), Clock(Top(s).(fds := fds), OpenClock);
            && Ok(now) && Booted(now) && Top(now) == p && TopTable(now) == fds && StillToCome(p) == FirstWait(s)
            && ProcessOk(p)
  {
    StepOk(s, Own(fds, OpenClock));
    SetTwice(s, Clock(Top(s).(fds := fds), OpenClock), Top(s));
    assert At(s, s.running, |s.consoles[s.running].stack| - 1);
  }

  /** Opening the clock and reading it once, on the machine. */
  lemma ReadClock(s: System, fds: seq<Descriptor>)
    requires Ok(s) && Booted(s) && TableOk(fds) && Ok(OwnStep(s, fds, OpenClock)) && Booted(OwnStep(s, fds, OpenClock))
    ensures var now := OwnStep(s, fds, OpenClock);
            var waited := AfterInterrupts(now, StillToCome(Top(now)));
            OwnStep(waited, TopTable(waited), ClearCounter) == ClockRead(s, fds)
  {
    hide ProcessOk, Distinct, BootOrder, InterruptStep;
    var p, n := Clock(Top(s).(fds := fds), OpenClock), FirstWait(s);
    OpenedClock(s, fds);
    InterruptsElsewhere(s, p, n);
    InterruptsCount(OwnStep(s, fds, OpenClock), n);
    KeepsPlaces(s, n);
    SetTwice(AfterInterrupts(s, n), Runs.Counted(p, n), Runs.Counted(p, n).(rtcCounter := 0));
  }

  lemma {:induction false} KeepsPlaces(s: System, n: nat)
    requires Ok(s) && Booted(s)
    ensures var r := AfterInterrupts(s, n);
            && Ok(r) && Booted(r) && r.running == s.running < |r.consoles| && r.consoles[r.running].stack != []
            && Top(r).pid == Top(s).pid
  {
    hide ProcessOk, Distinct, BootOrder, InterruptStep;
    if n > 0 {
      KeepsPlaces(s, n - 1);
      PlaceKept(AfterInterrupts(s, n - 1));
    }
  }

  lemma PlaceKept(s: System)
    requires s.running < |s.consoles| && s.consoles[s.running].stack != []
    ensures var r := InterruptStep(s);
            && r.running == s.running < |r.consoles| && r.consoles[r.running].stack != [] && Top(r).pid == Top(s).pid
  {
  }

  lemma ClockReadOk(s: System, fds: seq<Descriptor>)
    requires Ok(s) && Booted(s) && TableOk(fds)
    ensures Ok(ClockRead(s, fds)) && Booted(ClockRead(s, fds)) && TopTable(ClockRead(s, fds)) == fds
    ensures OwnStep(ClockRead(s, fds), TopTable(s), CloseClock) == ClockWaited(s)
    ensures Ok(ClockWaited(s)) && Booted(ClockWaited(s)) && TopTable(ClockWaited(s)) == TopTable(s)
  {
    hide TableOk, InterruptStep;
    var n, p := FirstWait(s), Top(s).(fds := fds, rtcFreq := 512, rtcCounter := 0);
    var q := Top(s).(rtcFreq := 0, rtcCounter := 0);
    assert At(s, s.running, |s.consoles[s.running].stack| - 1);
    KeepsPlaces(s, n);
    SetTopOk(AfterInterrupts(s, n), p);
    SetTopOk(AfterInterrupts(s, n), q);
    SetTwice(AfterInterrupts(s, n), p, q);
    SetTwice(AfterInterrupts(s, n), q, q);
  }

  // ---- On the kernel ----

  /** The running process, in s before it opened slot fd, has read so much of it; of the clock, nothing yet. */
  ghost predicate ReadSoFar(k: Kernel, s: System, fds: seq<Descriptor>, fd: nat, content: seq<Byte>, position: nat)
    reads k, k.processArray, k.pcbArray, k.terminals, k.screens
  {
    if fd < |fds| && fds[fd].driver == Some(Rtc) then
      && FilesReadable(k.image) && k.Valid() && Ok(s) && Booted(s) && TableOk(fds) && fd < OPEN_FILES
      && content == [] && position == 0 && k.sys == OwnStep(s, fds, OpenClock)
    else ReadUpTo(k, s, fds, fd, content, position)
  }

  /** It has read slot fd to its end. */
  ghost predicate ReadOut(k: Kernel, s: System, fds: seq<Descriptor>, fd: nat, content: seq<Byte>)
    reads k, k.processArray, k.pcbArray, k.terminals, k.screens
  {
    if fd < |fds| && fds[fd].driver == Some(Rtc) then
      && FilesReadable(k.image) && k.Valid() && Ok(s) && Booted(s) && TableOk(fds) && fd < OPEN_FILES
      && k.sys == ClockRead(s, fds)
    else ReadUpTo(k, s, fds, fd, content, |content|)
  }

  /** open, for a name that is a file's or the clock's if it can be opened at all. */
  method OpenToRead(k: Kernel, name: seq<Byte>) returns (fd: int, ghost fds: seq<Descriptor>, ghost content: seq<Byte>)
    requires FilesReadable(k.image) && k.Valid() && Booted(k.sys) && NUL in name
    requires NamesASource(k.image, TopTable(k.sys), name)
    modifies k`sys, k`dirReadnum, k.pcbArray
    ensures var o := Opening(k.image, TopTable(old(k.sys)), Some(name));
            && fd == o.fd && fds == o.fds
               && (fd != -1 ==> 0 <= fd < OPEN_FILES && content == Delivered(k.image, fds[fd]))
    ensures if fd == -1 then k.Valid() && k.sys == old(k.sys) else ReadSoFar(k, old(k.sys), fds, fd, content, 0)
    ensures k.dirReadnum == old(k.dirReadnum)
  {
    hide AllRecorded, LiveRecorded, TerminalsRecorded, Current, ProcessOk, OwnStep;
    ghost var s := k.sys;
    ghost var o := Opening(k.image, TopTable(s), Some(name));
    fds, content := o.fds, [];
    fd := Open(k, Some(name));
    OwnNothing(s);
    if fd != -1 {
      ReadsFromStart(k.image, s, name);
      content := Delivered(k.image, fds[fd]);
    }
  }

  /** A freshly opened file has been read up to its beginning. */
  lemma ReadsFromStart(image: seq<Byte>, s: System, name: seq<Byte>)
    requires FilesReadable(image) && Ok(s) && Booted(s) && NamesASource(image, TopTable(s), name)
    requires Opening(image, TopTable(s), Some(name)).fd != -1
    ensures var o := Opening(image, TopTable(s), Some(name));
            && TableOk(o.fds) && 2 <= o.fd < OPEN_FILES
            && o.op == (if o.fds[o.fd].driver == Some(Rtc) then OpenClock else Keep)
            && (o.fds[o.fd].driver == Some(Rtc) || o.fds[o.fd].driver == Some(Regular))
            && o.fds[o.fd].position == 0
            && Advanced(o.fds, o.fd, 0) == o.fds && |Delivered(image, o.fds[o.fd])| <= FS.MAX_FILE_SIZE
  {
    var o := Opening(image, TopTable(s), Some(name));
    OpeningOk(image, TopTable(s), Some(name));
    FileFits(image, o.fds[o.fd]);
  }

  /** read: delivers the next bytes, or nothing at the end; of the clock nothing, after the wait. */
  method ReadMore(k: Kernel, fd: nat, buf: array<Byte>, at: nat, nbytes: nat,
                  ghost s: System, ghost fds: seq<Descriptor>, ghost content: seq<Byte>, ghost position: nat)
    returns (r: nat)
    requires ReadSoFar(k, s, fds, fd, content, position) && 0 < nbytes < 0x8000_0000 && at + nbytes <= buf.Length
    modifies k`sys, k.pcbArray, buf
    ensures r == |FS.Slice(content, position, nbytes)| && position + r <= |content|
    ensures buf[..] == FS.Splice(old(buf[..]), at, FS.Slice(content, position, nbytes))
    ensures if r == 0 then ReadOut(k, s, fds, fd, content) && position == |content|
            else ReadSoFar(k, s, fds, fd, content, position + r)
  {
    hide Represents, Ok, TableOk, FilesReadable, ClockRead;
    var driver := DriverOf(k, fd, s, fds, content, position);
    if driver == Rtc {
      ghost var before := buf[..];
      OpenedClock(s, fds);
      ReadClock(s, fds);
      r := RtcRead(k);
      assert FS.Slice(content, position, nbytes) == [];
      assert FS.Splice(before, at, []) == before;
    } else {
      r := ReadOn(k, fd, buf, at, nbytes, s, fds, content, position);
    }
  }

  /** The driver read goes to is the one open put into the slot. */
  method DriverOf(k: Kernel, fd: nat, ghost s: System, ghost fds: seq<Descriptor>, ghost content: seq<Byte>,
                  ghost position: nat) returns (driver: Driver)
    requires ReadSoFar(k, s, fds, fd, content, position)
    ensures fds[fd].driver == Some(driver) && (driver == Rtc || driver == Regular) && Booted(k.sys)
  {
    hide AllRecorded, LiveRecorded, TerminalsRecorded, Current, FilesReadable;
    if fds[fd].driver == Some(Rtc) {
      OpenedClock(s, fds);
    } else {
      BeforeRead(k.image, s, fds, fd, position);
    }
    CurrentRecord(k.View(), k.sys);
    driver := k.pcbArray[k.currPid].fds[fd].driver.value;
  }

  /** Closing what has been opened and read gives back the state before, with the interrupts waited for if any. */
  method CloseSource(k: Kernel, fd: nat, ghost s: System, ghost name: seq<Byte>, ghost content: seq<Byte>)
    returns (r: int)
    requires FilesReadable(k.image) && Ok(s) && Booted(s) && NamesASource(k.image, TopTable(s), name)
    requires var o := Opening(k.image, TopTable(s), Some(name));
             fd == o.fd && content == Delivered(k.image, o.fds[o.fd]) && ReadOut(k, s, o.fds, fd, content)
    modifies k`sys, k.pcbArray
    ensures k.Valid() && r == 0
    ensures k.sys == if Opening(k.image, TopTable(s), Some(name)).op == OpenClock then ClockWaited(s) else s
  {
    hide AllRecorded, LiveRecorded, TerminalsRecorded, Current, ProcessOk, TableOk, OwnStep, FilesReadable;
    ReadsFromStart(k.image, s, name);
    CloseAfterReading(k.image, s, name);
    r := Close(k, fd);
  }

  lemma CloseAfterReading(image: seq<Byte>, s: System, name: seq<Byte>)
    requires FilesReadable(image) && Ok(s) && Booted(s) && NamesASource(image, TopTable(s), name)
    requires Opening(image, TopTable(s), Some(name)).fd != -1
    ensures var o := Opening(image, TopTable(s), Some(name));
            && TableOk(o.fds) && 2 <= o.fd < OPEN_FILES
            && var read := Advanced(o.fds, o.fd, |Delivered(image, o.fds[o.fd])|);
               var r := if o.op == OpenClock then ClockRead(s, o.fds) else OwnStep(s, read, Keep);
            && Ok(r) && Booted(r)
            && var c := Closing(TopTable(r), o.fd);
               c.fd == 0 && OwnStep(r, c.fds, c.op) == if o.op == OpenClock then ClockWaited(s) else s
  {
    hide ClockRead, ClockWaited, OwnStep;
    var o := Opening(image, TopTable(s), Some(name));
    ReadsFromStart(image, s, name);
    if o.op == OpenClock {
      CloseUndoesOpen(image, TopTable(s), Some(name));
      ClockReadOk(s, o.fds);
    } else {
      var n := |Delivered(image, o.fds[o.fd])|;
      var read := Advanced(o.fds, o.fd, n);
      AdvancedOk(o.fds, o.fd, n);
      OwnTwice(s, read, TopTable(s));
      OwnNothing(s);
      assert read[o.fd := CLOSED] == TopTable(s);
    }
  }
}
