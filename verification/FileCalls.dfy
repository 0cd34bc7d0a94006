// Calls on a process's descriptor table: open and close of student-distrib/system_call.c, the file and directory
// drivers of filesystem.c, and getargs.
module FileCalls {
  import opened Bytes
  import opened CStrings
  import opened Descriptors
  import opened ProcessStacks
  import opened KernelTables
  import opened Kernel
  import FS = FileSystem

  const STDIN: seq<Byte> := [0x73, 0x74, 0x64, 0x69, 0x6E]
  const STDOUT: seq<Byte> := [0x73, 0x74, 0x64, 0x6F, 0x75, 0x74]

  predicate BeginsWith(name: seq<Byte>, prefix: seq<Byte>) {
    prefix <= Text(name)
  }

  method HasPrefix(name: seq<Byte>, prefix: seq<Byte>) returns (r: bool)
    requires NUL in name && NUL !in prefix
    ensures r <==> BeginsWith(name, prefix)
  {
    var literal := prefix + [NUL];
    TextIs(literal, |prefix|);
    assert literal[..|prefix|] == prefix;
    var c := StrNCmp(name, literal, |prefix|);
    r := c == 0;
  }

  // ---- open ----

  /** The slot open fills in for a directory entry. */
  function SlotFor(entry: seq<Byte>): Descriptor
    requires |entry| == 64
  {
    if FS.FileType(entry) == FS.RTC_FILE then Descriptor(Some(Rtc), -1, 0, true)
    else if FS.FileType(entry) == FS.DIRECTORY_FILE then Descriptor(Some(Directory), -1, 0, true)
    else Descriptor(Some(Regular), FS.InodeOf(entry), 0, true)
  }

  datatype Opened = Opened(fd: int, fds: seq<Descriptor>, op: ClockOp)

  /** What open does to a table: the lowest free slot of 2..7 takes the file, or nothing changes. */
  ghost function Opening(image: seq<Byte>, fds: seq<Descriptor>, name: Option<seq<Byte>>): (o: Opened)
    requires FS.WellFormed(image) && |fds| == OPEN_FILES
    ensures -1 <= o.fd < |o.fds| == OPEN_FILES
  {
    if name.None? then Opened(-1, fds, Keep)
    else if BeginsWith(name.value, STDIN) then Opened(0, fds, Keep)
    else if BeginsWith(name.value, STDOUT) then Opened(1, fds, Keep)
    else if FS.Lookup(image, name.value).None? || FirstFree(fds, 2) == OPEN_FILES then Opened(-1, fds, Keep)
    else
      var slot := SlotFor(FS.Entry(image, FS.Lookup(image, name.value).value));
      Opened(FirstFree(fds, 2), fds[FirstFree(fds, 2) := slot], if slot.driver == Some(Rtc) then OpenClock else Keep)
  }

  lemma OpeningOk(image: seq<Byte>, fds: seq<Descriptor>, name: Option<seq<Byte>>)
    requires FS.WellFormed(image) && TableOk(fds)
    ensures TableOk(Opening(image, fds, name).fds)
    ensures Opening(image, fds, name).op == Keep || Opening(image, fds, name).op == OpenClock
  {
  }

  /** A name is opened exactly when it names the console, or is listed and a slot is free. */
  lemma OpenSucceeds(image: seq<Byte>, fds: seq<Descriptor>, name: seq<Byte>)
    requires FS.WellFormed(image) && TableOk(fds)
    ensures Opening(image, fds, Some(name)).fd >= 0 <==>
              BeginsWith(name, STDIN) || BeginsWith(name, STDOUT) ||
              (FS.Lookup(image, name).Some? && exists fd :: 2 <= fd < OPEN_FILES && fds[fd] == CLOSED)
  {
  }

  /** Opening the console gives the descriptor that already is the console, and changes nothing. */
  lemma ConsoleIsOpen(image: seq<Byte>, fds: seq<Descriptor>, name: seq<Byte>)
    requires FS.WellFormed(image) && TableOk(fds) && (BeginsWith(name, STDIN) || BeginsWith(name, STDOUT))
    ensures var o := Opening(image, fds, Some(name));
            && o.fds == fds && o.op == Keep && 0 <= o.fd < 2
            && o.fds[o.fd].driver == Some(if BeginsWith(name, STDIN) then Stdin else Stdout)
  {
  }

  /** Writes the caller's table and clock back into its PCB, as every driver call here does. */
  method Store(k: Kernel, fds: seq<Descriptor>, op: ClockOp)
    requires k.Valid() && Booted(k.sys) && TableOk(fds) && (op.SetRate? ==> op.ticks > 0)
    modifies k`sys, k.pcbArray
    ensures k.Valid() && k.sys == OwnStep(old(k.sys), fds, op)
  {
    ghost var before, s := k.View(), k.sys;
    OwnRepresents(before, s, fds, op);
    var p := k.pcbArray[k.currPid].(fds := fds);
    match op {
      case Keep =>
      case OpenClock => p := p.(rtcFreq := 512);
      case CloseClock => p := p.(rtcFreq := 0, rtcCounter := 0);
      case SetRate(ticks) => p := p.(rtcFreq := ticks);
      case ClearCounter => p := p.(rtcCounter := 0);
    }
    k.pcbArray[k.currPid] := p;
    assert k.View() == OwnTables(before, fds, op);
    k.sys := OwnStep(s, fds, op);
  }

  method Open(k: Kernel, name: Option<seq<Byte>>) returns (r: int)
    requires FS.WellFormed(k.image) && k.Valid() && Booted(k.sys) && (name.Some? ==> NUL in name.value)
    modifies k`sys, k`dirReadnum, k.pcbArray
    ensures k.Valid()
    ensures var o := Opening(k.image, TopTable(old(k.sys)), name);
            && r == o.fd && k.sys == OwnStep(old(k.sys), o.fds, o.op)
            && k.dirReadnum == if r >= 2 && o.fds[r].driver == Some(Directory) then 0 else old(k.dirReadnum)
  {
    hide ProcessOk, AllRecorded, LiveRecorded, TerminalsRecorded, Current, OwnStep, FS.FindEntry, Text;
    ghost var before, s := k.View(), k.sys;
    CurrentRecord(before, s);
    OpeningOk(k.image, TopTable(s), name);
    var fds := k.pcbArray[k.currPid].fds;
    if name.None? {
      Store(k, fds, Keep);
      return -1;
    }
    var console := HasPrefix(name.value, STDIN);
    if console {
      assert fds[0 := fds[0].(inUse := true, driver := Some(Stdin))] == fds;
      Store(k, fds[0 := fds[0].(inUse := true, driver := Some(Stdin))], Keep);
      return 0;
    }
    console := HasPrefix(name.value, STDOUT);
    if console {
      assert fds[1 := fds[1].(inUse := true, driver := Some(Stdout))] == fds;
      Store(k, fds[1 := fds[1].(inUse := true, driver := Some(Stdout))], Keep);
      return 1;
    }
    var entry := FS.ReadDentryByName(k.image, name.value);
    if entry.None? {
      Store(k, fds, Keep);
      return -1;
    }
    var fd := FindFree(fds);
    if fd == OPEN_FILES {
      Store(k, fds, Keep);
      return -1;
    }
    r := fd;
    var slot, op := OpenDriver(k, fds[fd], entry.value);
    Store(k, fds[fd := slot.(position := 0, inUse := true)], op);
  }

  /** Choosing the driver by file type and calling its open, none of which can fail for a file that exists. */
  method OpenDriver(k: Kernel, free: Descriptor, entry: seq<Byte>) returns (slot: Descriptor, op: ClockOp)
    requires |entry| == 64 && FS.FileType(entry) <= FS.REGULAR_FILE
    modifies k`dirReadnum
    ensures slot.(position := 0, inUse := true) == SlotFor(entry)
    ensures op == if SlotFor(entry).driver == Some(Rtc) then OpenClock else Keep
    ensures k.dirReadnum == if SlotFor(entry).driver == Some(Directory) then 0 else old(k.dirReadnum)
  {
    slot, op := free, Keep;
    if FS.FileType(entry) == FS.RTC_FILE {
      slot := slot.(inode := -1, driver := Some(Rtc));
      op := OpenClock;
    } else if FS.FileType(entry) == FS.DIRECTORY_FILE {
      slot := slot.(inode := -1, driver := Some(Directory));
      k.dirReadnum := 0;
    } else {
      slot := slot.(inode := FS.InodeOf(entry), driver := Some(Regular));
    }
  }

  // ---- close ----

  /** What close does to a table. */
  function Closing(fds: seq<Descriptor>, fd: int): Opened
    requires |fds| == OPEN_FILES
  {
    if !(0 <= fd < OPEN_FILES) || !fds[fd].inUse || fds[fd].driver == Some(Stdin) || fds[fd].driver == Some(Stdout) then
      Opened(-1, fds, Keep)
    else Opened(0, fds[fd := CLOSED], if fds[fd].driver == Some(Rtc) then CloseClock else Keep)
  }

  lemma ClosingOk(fds: seq<Descriptor>, fd: int)
    requires TableOk(fds)
    ensures TableOk(Closing(fds, fd).fds) && (Closing(fds, fd).op == Keep || Closing(fds, fd).op == CloseClock)
    ensures Closing(fds, fd).fd == 0 <==> 2 <= fd < OPEN_FILES && fds[fd].inUse
  {
  }

  /** Closing what was just opened gives back the very table there was. */
  lemma CloseUndoesOpen(image: seq<Byte>, fds: seq<Descriptor>, name: Option<seq<Byte>>)
    requires FS.WellFormed(image) && TableOk(fds) && Opening(image, fds, name).fd >= 2
    ensures var o := Opening(image, fds, name);
            && Closing(o.fds, o.fd).fd == 0 && Closing(o.fds, o.fd).fds == fds
            && (o.op == OpenClock <==> Closing(o.fds, o.fd).op == CloseClock)
  {
    var o := Opening(image, fds, name);
    assert o.fds[o.fd := CLOSED] == fds;
  }

  /** Descriptor 8 passes the range test of close and names memory past the table, so it is not a legal argument. */
  method Close(k: Kernel, fd: int) returns (r: int)
    requires k.Valid() && Booted(k.sys) && fd != OPEN_FILES
    modifies k`sys, k.pcbArray
    ensures k.Valid()
    ensures var c := Closing(TopTable(old(k.sys)), fd);
            r == c.fd && k.sys == OwnStep(old(k.sys), c.fds, c.op)
  {
    ghost var before, s := k.View(), k.sys;
    CurrentRecord(before, s);
    ClosingOk(TopTable(s), fd);
    var fds := k.pcbArray[k.currPid].fds;
    if fd < 0 || fd > OPEN_FILES || !fds[fd].inUse {
      Store(k, fds, Keep);
      return -1;
    }
    var op := Keep;
    match fds[fd].driver.value {
      case Stdin => r := -1;
      case Stdout => r := -1;
      case Rtc => r, op := 0, CloseClock;
      case Directory => r := 0;
      case Regular => r := if fd == 0 || fd == 1 then -1 else 0;
    }
    if r == 0 {
      Store(k, fds[fd := Descriptor(None, -1, 0, false)], op);
    } else {
      Store(k, fds, Keep);
    }
  }

  // ---- reading files ----

  /** The bytes of the file an open descriptor names. */
  ghost function FileOf(image: seq<Byte>, d: Descriptor): seq<Byte>
    requires FilesReadable(image)
  {
    if Wrap32(d.inode) < FS.InodeCount(image) then FS.Content(image, Wrap32(d.inode)) else []
  }

  /** What read_data makes of a descriptor and a count, all three of them taken as unsigned 32-bit numbers. */
  ghost function Got(image: seq<Byte>, d: Descriptor, nbytes: int): seq<Byte>
    requires FS.WellFormed(image)
  {
    FS.ReadBytes(image, Wrap32(d.inode), Wrap32(d.position), Wrap32(nbytes))
  }

  ghost function Returned(image: seq<Byte>, d: Descriptor, nbytes: int): int
    requires FS.WellFormed(image)
  {
    FS.ReadResult(image, Wrap32(d.inode), Wrap32(d.position), Wrap32(nbytes))
  }

  /** The driver: read_data at the position, which then moves on by the result. */
  method FileRead(image: seq<Byte>, d: Descriptor, buf: array<Byte>, at: nat, nbytes: int)
    returns (r: int, moved: Descriptor)
    requires FS.WellFormed(image) && at + |Got(image, d, nbytes)| <= buf.Length
    modifies buf
    ensures r == Returned(image, d, nbytes) && buf[..] == FS.Splice(old(buf[..]), at, Got(image, d, nbytes))
    ensures moved == d.(position := Signed32(d.position + r))
  {
    hide FS.ReadBytes, FS.ReadResult, FS.WellFormed;
    r := FS.ReadData(image, Wrap32(d.inode), Wrap32(d.position), buf, at, Wrap32(nbytes));
    moved := d.(position := Signed32(d.position + r));
  }

  /** For a count that is not negative, that is the flat slice of the file. */
  lemma ReadsItsFile(image: seq<Byte>, d: Descriptor, nbytes: nat)
    requires FilesReadable(image) && FilePlace(d) && nbytes < 0x8000_0000
    ensures var part := FS.Slice(FileOf(image, d), d.position, nbytes);
            Got(image, d, nbytes) == part && Returned(image, d, nbytes) == |part| <= nbytes
  {
    assert Wrap32(d.position) == d.position && Wrap32(nbytes) == nbytes;
    if Wrap32(d.inode) < FS.InodeCount(image) {
      hide FS.ReadBytes, FS.ReadResult, FS.Content, FS.Slice;
      FS.ReadIsSlice(image, Wrap32(d.inode), d.position, nbytes);
      FS.SliceBound(FS.Content(image, Wrap32(d.inode)), d.position, nbytes);
    }
  }

  /** Whatever the count, even a negative one, the position never leaves the largest file. */
  lemma PositionStays(image: seq<Byte>, d: Descriptor, nbytes: int)
    requires FilesReadable(image) && FilePlace(d)
    ensures 0 <= d.position + Returned(image, d, nbytes) <= FS.MAX_FILE_SIZE
  {
    var inode, length := Wrap32(d.inode), Wrap32(nbytes);
    if inode < FS.InodeCount(image) && d.position <= FS.FileSize(image, inode) {
      FS.ClippedIsRight(FS.FileSize(image, inode), d.position, length);
    }
  }

  function Advanced(fds: seq<Descriptor>, fd: nat, n: int): (r: seq<Descriptor>)
    requires fd < |fds|
  {
    fds[fd := fds[fd].(position := fds[fd].position + n)]
  }

  lemma AdvancedOk(fds: seq<Descriptor>, fd: nat, n: int)
    requires TableOk(fds) && fd < OPEN_FILES && fds[fd].driver == Some(Regular)
    requires 0 <= fds[fd].position + n <= FS.MAX_FILE_SIZE
    ensures TableOk(Advanced(fds, fd, n))
  {
  }

  /** read on an open file: only that slot's position changes. */
  method ReadDescriptor(k: Kernel, fd: nat, buf: array<Byte>, at: nat, nbytes: int) returns (r: int)
    requires FilesReadable(k.image) && k.Valid() && Booted(k.sys) && fd < OPEN_FILES
    requires TopTable(k.sys)[fd].driver == Some(Regular)
             && at + |Got(k.image, TopTable(k.sys)[fd], nbytes)| <= buf.Length
    modifies k`sys, k.pcbArray, buf
    ensures k.Valid()
    ensures r == Returned(k.image, TopTable(old(k.sys))[fd], nbytes)
    ensures buf[..] == FS.Splice(old(buf[..]), at, Got(k.image, TopTable(old(k.sys))[fd], nbytes))
    ensures k.sys == OwnStep(old(k.sys), Advanced(TopTable(old(k.sys)), fd, r), Keep)
  {
    hide AllRecorded, LiveRecorded, TerminalsRecorded, Current, ProcessOk, Got, Returned;
    CurrentRecord(k.View(), k.sys);
    var fds := k.pcbArray[k.currPid].fds;
    PositionStays(k.image, fds[fd], nbytes);
    var moved;
    r, moved := FileRead(k.image, fds[fd], buf, at, nbytes);
    AdvancedOk(fds, fd, r);
    Unwrapped(fds[fd].position + r);
    assert fds[fd := moved] == Advanced(fds, fd, r);
    Store(k, fds[fd := moved], Keep);
  }

  lemma Unwrapped(n: int)
    requires 0 <= n <= FS.MAX_FILE_SIZE
    ensures Signed32(n) == n
  {
  }

  // ---- reading the directory ----

  /** Entry n's name, NUL-padded or cut, and its length; past the last entry 0, with nothing written. */
  ghost predicate NameDelivered(image: seq<Byte>, n: nat, nbytes: nat, before: seq<Byte>, r: int, after: seq<Byte>,
                                next: nat)
    requires FS.WellFormed(image) && nbytes <= |before|
  {
    if n >= FS.EntryCount(image) then r == 0 && after == before && next == n
    else
      && r == |Cut(Text(FS.Entry(image, n)), nbytes)| && next == n + 1
      && after == FS.Splice(before, 0, Padded(Text(FS.Entry(image, n)), nbytes))
  }

  /** Delivers the next entry's name, NUL-padded or cut, and moves on; at the end it delivers nothing for ever. */
  method DirRead(k: Kernel, buf: array<Byte>, nbytes: nat) returns (r: int)
    requires FS.WellFormed(k.image) && nbytes <= buf.Length
    modifies k`dirReadnum, buf
    ensures NameDelivered(k.image, old(k.dirReadnum), nbytes, old(buf[..]), r, buf[..], k.dirReadnum)
  {
    hide Text, FS.LittleEndian;
    if k.dirReadnum >= FS.EntryCount(k.image) {
      return 0;
    }
    var fetch := FS.ReadDentryByIndex(k.image, k.dirReadnum);
    var name := fetch.value;
    FS.EntryEnds(name);
    var len := StrLen(name);
    ghost var before := buf[..];
    StrNCpy(buf, 0, name, nbytes);
    assert buf[0..0 + nbytes] == buf[..nbytes];
    assert buf[..] == before[..0] + buf[..nbytes] + before[nbytes..];
    k.dirReadnum := k.dirReadnum + 1;
    return if nbytes <= len then nbytes else len;
  }

  // ---- read ----

  /** The slot a read is dispatched on, if the descriptor is in range and in use. */
  function SlotOf(fds: seq<Descriptor>, fd: int): Option<Descriptor>
    requires |fds| == OPEN_FILES
  {
    if 0 <= fd < OPEN_FILES && fds[fd].inUse then Some(fds[fd]) else None
  }

  /** The buffer has room for what the driver will put there. */
  ghost predicate Room(image: seq<Byte>, slot: Option<Descriptor>, size: nat, nbytes: int)
    requires FS.WellFormed(image)
  {
    slot.Some? ==>
      && (slot.value.driver == Some(Regular) ==> |Got(image, slot.value, nbytes)| <= size)
      && (slot.value.driver == Some(Directory) ==> 0 <= nbytes <= size)
  }

  /**
   * read: a bad descriptor and standard output fail; a file and the directory deliver what their drivers do. A read of
   * the clock or of standard input goes on to wait in rtc_read or terminal_read; None stands for that.
   */
  method Read(k: Kernel, fd: int, buf: array<Byte>, nbytes: int) returns (r: Option<int>)
    requires FilesReadable(k.image) && k.Valid() && Booted(k.sys) && fd != OPEN_FILES
    requires Room(k.image, SlotOf(TopTable(k.sys), fd), buf.Length, nbytes)
    modifies k`sys, k`dirReadnum, k.pcbArray, buf
    ensures k.Valid()
    ensures var slot := SlotOf(TopTable(old(k.sys)), fd);
            if slot.None? || slot.value.driver == Some(Stdout) then
              r == Some(-1) && k.sys == old(k.sys) && buf[..] == old(buf[..]) && k.dirReadnum == old(k.dirReadnum)
            else if slot.value.driver == Some(Regular) then
              && r == Some(Returned(k.image, slot.value, nbytes)) && k.dirReadnum == old(k.dirReadnum)
              && buf[..] == FS.Splice(old(buf[..]), 0, Got(k.image, slot.value, nbytes))
              && k.sys == OwnStep(old(k.sys), Advanced(TopTable(old(k.sys)), fd, r.value), Keep)
            else if slot.value.driver == Some(Directory) then
              && r.Some? && k.sys == old(k.sys)
              && NameDelivered(k.image, old(k.dirReadnum), nbytes, old(buf[..]), r.value, buf[..], k.dirReadnum)
            else r == None && k.sys == old(k.sys) && buf[..] == old(buf[..]) && k.dirReadnum == old(k.dirReadnum)
  {
    hide AllRecorded, LiveRecorded, TerminalsRecorded, Current, ProcessOk, Got, Returned, FS.WellFormed, NameDelivered;
    CurrentRecord(k.View(), k.sys);
    var fds := k.pcbArray[k.currPid].fds;
    if fd < 0 || fd > OPEN_FILES || !fds[fd].inUse {
      return Some(-1);
    }
    match fds[fd].driver.value {
      case Stdin => r := None;
      case Stdout => r := Some(-1);
      case Rtc => r := None;
      case Directory =>
        var n := DirRead(k, buf, nbytes);
        r := Some(n);
      case Regular =>
        var n := ReadDescriptor(k, fd, buf, 0, nbytes);
        r := Some(n);
    }
  }

  // ---- getargs ----

  method GetArgs(k: Kernel, buf: array<Byte>, nbytes: nat) returns (r: int)
    requires k.Valid() && Booted(k.sys) && nbytes <= buf.Length
    modifies buf
    ensures r == -1 <==> Text(Top(k.sys).args) == []
    ensures r != -1 ==> r == 0 && buf[..nbytes] == Padded(Text(Top(k.sys).args), nbytes)
    ensures buf[..] == if r == -1 then old(buf[..])
              else FS.Splice(old(buf[..]), 0, Padded(Text(Top(k.sys).args), nbytes))
  {
    CurrentRecord(k.View(), k.sys);
    var args := k.pcbArray[k.currPid].args;
    if args[0] == NUL {
      return -1;
    }
    StrNCpy(buf, 0, args, nbytes);
    assert buf[0..0 + nbytes] == buf[..nbytes];
    assert buf[..] == buf[..0] + buf[..nbytes] + buf[nbytes..];
    return 0;
  }
}
