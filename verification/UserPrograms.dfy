// Programs that read through the kernel: syscalls/ece391cat.c and ece391ls.c.
module UserPrograms {
  import opened Bytes
  import opened CStrings
  import opened Descriptors
  import opened ProcessStacks
  import opened KernelTables
  import opened Kernel
  import opened FileCalls
  import opened SequentialReads
  import opened Sources
  import FS = FileSystem
  import Command
  import G = Grep

  // ---- cat ----

  /** The name cat opens: its argument in a buffer of 1024 bytes. */
  function CatName(args: seq<Byte>): seq<Byte> {
    Padded(Text(args), 1024)
  }

  /** A chunk read at a position extends what was delivered up to it; an empty one means there is no more. */
  lemma ChunkExtends(content: seq<Byte>, position: nat, size: nat)
    requires position <= |content|
    ensures var chunk := FS.Slice(content, position, size);
            position + |chunk| <= |content| && content[..position] + chunk == content[..position + |chunk|]
  {
  }

  /** One turn of the loop of cat: reads up to 1024 bytes, which are what it writes. */
  method NextChunk(k: Kernel, fd: nat, buf: array<Byte>, ghost s: System, ghost fds: seq<Descriptor>,
                   ghost content: seq<Byte>, ghost position: nat) returns (chunk: seq<Byte>)
    requires ReadSoFar(k, s, fds, fd, content, position) && position <= |content| && buf.Length == 1024
    modifies k`sys, k.pcbArray, buf
    ensures position + |chunk| <= |content| && content[..position] + chunk == content[..position + |chunk|]
    ensures if chunk == [] then position == |content| && ReadOut(k, s, fds, fd, content)
            else ReadSoFar(k, s, fds, fd, content, position + |chunk|)
  {
    hide ReadSoFar, ReadOut;
    ghost var before := buf[..];
    var cnt := ReadMore(k, fd, buf, 0, 1024, s, fds, content, position);
    SplicedFirst(before, FS.Slice(content, position, 1024));
    ChunkExtends(content, position, 1024);
    assert buf[..][..cnt] == buf[..cnt];
    chunk := buf[..cnt];
  }

  /** The loop of cat: read and write until nothing comes. */
  method CatLoop(k: Kernel, fd: nat, buf: array<Byte>, ghost s: System, ghost fds: seq<Descriptor>,
                 ghost content: seq<Byte>) returns (out: seq<Byte>)
    requires ReadSoFar(k, s, fds, fd, content, 0) && buf.Length == 1024
    modifies k`sys, k.pcbArray, buf
    ensures out == content && ReadOut(k, s, fds, fd, content)
  {
    hide ReadSoFar, ReadOut;
    out := [];
    while true
      invariant |out| <= |content| && ReadSoFar(k, s, fds, fd, content, |out|) && out == content[..|out|]
      decreases |content| - |out|
    {
      var chunk := NextChunk(k, fd, buf, s, fds, content, |out|);
      if chunk == [] {
        return;
      }
      out := out + chunk;
    }
  }

  /** What a program does to the world: its exit status, what it writes, and the state it leaves. */
  datatype Outcome = Outcome(status: int, out: seq<Byte>, sys: System)

  /**
   * cat writes exactly the bytes of the file it is given, which stays open at its end, or says why it cannot. Of the
   * clock it writes nothing, and has waited for it once.
   */
  ghost function CatOutcome(image: seq<Byte>, s: System): Outcome
    requires FilesReadable(image) && Ok(s) && Booted(s) && NamesASource(image, TopTable(s), CatName(Top(s).args))
  {
    if Text(Top(s).args) == [] then Outcome(3, NO_ARGUMENTS, s)
    else
      var o := Opening(image, TopTable(s), Some(CatName(Top(s).args)));
      if o.fd == -1 then Outcome(2, NOT_FOUND, s)
      else
        ReadsFromStart(image, s, CatName(Top(s).args));
        var content := Delivered(image, o.fds[o.fd]);
        Outcome(0, content, if o.op == OpenClock then ClockRead(s, o.fds)
                            else OwnStep(s, Advanced(o.fds, o.fd, |content|), Keep))
  }

  method Cat(k: Kernel) returns (status: int, out: seq<Byte>)
    requires FilesReadable(k.image) && k.Valid() && Booted(k.sys)
    requires NamesASource(k.image, TopTable(k.sys), CatName(Top(k.sys).args))
    modifies k`sys, k`dirReadnum, k.pcbArray
    ensures k.Valid() && Outcome(status, out, k.sys) == CatOutcome(k.image, old(k.sys))
  {
    var buf := new Byte[1024];
    var r := GetArgs(k, buf, 1024);
    if r != 0 {
      return 3, NO_ARGUMENTS;
    }
    assert buf[..1024] == buf[..];
    PaddedArgument(k.sys);
    status, out := CatFile(k, buf);
  }

  /** cat once it has its argument. */
  method CatFile(k: Kernel, buf: array<Byte>) returns (status: int, out: seq<Byte>)
    requires FilesReadable(k.image) && k.Valid() && Booted(k.sys) && Text(Top(k.sys).args) != []
    requires buf.Length == 1024 && buf[..] == CatName(Top(k.sys).args) && NUL in buf[..]
    requires NamesASource(k.image, TopTable(k.sys), CatName(Top(k.sys).args))
    modifies k`sys, k`dirReadnum, k.pcbArray, buf
    ensures k.Valid() && Outcome(status, out, k.sys) == CatOutcome(k.image, old(k.sys))
  {
    hide NamesASource, AllRecorded, LiveRecorded, TerminalsRecorded, Current, ProcessOk, TableOk, OwnStep, ClockRead;
    ghost var s := k.sys;
    var fd;
    ghost var fds, content;
    fd, fds, content := OpenToRead(k, buf[..]);
    if fd == -1 {
      return 2, NOT_FOUND;
    }
    ReadsFromStart(k.image, s, CatName(Top(s).args));
    status := 0;
    out := CatLoop(k, fd, buf, s, fds, content);
  }

  /** An argument fits the buffers of these programs with its NUL. */
  lemma PaddedArgument(s: System)
    requires Ok(s) && Booted(s)
    ensures NUL in CatName(Top(s).args) && Text(CatName(Top(s).args)) == Text(Top(s).args)
  {
    assert At(s, s.running, |s.consoles[s.running].stack| - 1);
    TextIsPrefix(Top(s).args);
    Command.PaddedText(Text(Top(s).args), 1024);
  }

  const NO_ARGUMENTS := Ascii("could not read arguments\n")

  const NOT_FOUND := Ascii("file not found\n")

  // ---- ls ----

  /** Every name of the directory from entry i on, one per line. */
  function AllNames(image: seq<Byte>, i: nat): seq<Byte>
    requires |image| >= 4096 && FS.EntryCount(image) <= 63
    decreases FS.EntryCount(image) - i
  {
    if i >= FS.EntryCount(image) then [] else FS.Name(FS.Entry(image, i)) + [NEWLINE] + AllNames(image, i + 1)
  }

  /** The same, but stopping at the first empty name. */
  function Listing(image: seq<Byte>, i: nat): seq<Byte>
    requires |image| >= 4096 && FS.EntryCount(image) <= 63
    decreases FS.EntryCount(image) - i
  {
    if i >= FS.EntryCount(image) || FS.Name(FS.Entry(image, i)) == [] then []
    else FS.Name(FS.Entry(image, i)) + [NEWLINE] + Listing(image, i + 1)
  }

  /** The listing is complete exactly when no entry has an empty name. */
  lemma {:induction false} ListsAll(image: seq<Byte>, i: nat)
    requires FS.WellFormed(image)
    ensures Listing(image, i) == AllNames(image, i) <==>
              forall j :: i <= j < FS.EntryCount(image) ==> FS.Name(FS.Entry(image, j)) != []
    decreases FS.EntryCount(image) - i
  {
    hide FS.Name, FS.Entry, FS.EntryCount, FS.FileType, FS.FileSize;
    if i < FS.EntryCount(image) {
      var line := FS.Name(FS.Entry(image, i)) + [NEWLINE];
      ListsAll(image, i + 1);
      if FS.Name(FS.Entry(image, i)) == [] {
        assert |AllNames(image, i)| >= 1;
      } else {
        assert Listing(image, i)[|line|..] == Listing(image, i + 1);
        assert AllNames(image, i)[|line|..] == AllNames(image, i + 1);
      }
    }
  }

  /** One 32-byte read, and its name with a newline put after it. */
  method NextName(k: Kernel, buf: array<Byte>) returns (line: seq<Byte>)
    requires FS.WellFormed(k.image) && k.dirReadnum <= FS.EntryCount(k.image) && buf.Length == 33
    modifies k`dirReadnum, buf
    ensures line == [] ==> Listing(k.image, old(k.dirReadnum)) == []
    ensures line != [] ==> old(k.dirReadnum) < k.dirReadnum <= FS.EntryCount(k.image)
                           && Listing(k.image, old(k.dirReadnum)) == line + Listing(k.image, k.dirReadnum)
  {
    ghost var n := k.dirReadnum;
    var cnt := DirRead(k, buf, 32);
    if cnt == 0 {
      return [];
    }
    NameRead(FS.Entry(k.image, n), buf[..], cnt);
    buf[cnt] := NEWLINE;
    assert buf[..cnt + 1] == FS.Name(FS.Entry(k.image, n)) + [NEWLINE];
    line := buf[..cnt + 1];
  }

  /** The loop of ls: names are written until a read delivers nothing. */
  method LsLoop(k: Kernel) returns (out: seq<Byte>)
    requires FS.WellFormed(k.image) && k.dirReadnum == 0
    modifies k`dirReadnum
    ensures out == Listing(k.image, 0)
  {
    var buf := new Byte[33];
    out := [];
    while true
      invariant out + Listing(k.image, k.dirReadnum) == Listing(k.image, 0) && k.dirReadnum <= FS.EntryCount(k.image)
      decreases FS.EntryCount(k.image) - k.dirReadnum
    {
      var line := NextName(k, buf);
      if line == [] {
        return;
      }
      G.Appended(out, line, Listing(k.image, k.dirReadnum));
      out := out + line;
    }
  }

  lemma NameRead(entry: seq<Byte>, buf: seq<Byte>, cnt: nat)
    requires |buf| == 33 && buf[..32] == Padded(Text(entry), 32) && cnt == |Cut(Text(entry), 32)|
    ensures buf[..cnt] == FS.Name(entry)
  {
  }

  const DOT: seq<Byte> := [0x2E, 0x00]

  const NO_DIRECTORY := Ascii("directory open failed\n")

  /** Opening "." fails, or gives the directory. */
  ghost predicate DotIsDirectory(image: seq<Byte>, fds: seq<Descriptor>)
    requires FS.WellFormed(image) && TableOk(fds)
  {
    var o := Opening(image, fds, Some(DOT));
    o.fd == -1 || (2 <= o.fd && o.fds[o.fd].driver == Some(Directory))
  }

  /** ls writes the directory's names in order, each on its own line. */
  method Ls(k: Kernel) returns (status: int, out: seq<Byte>)
    requires FilesReadable(k.image) && k.Valid() && Booted(k.sys) && DotIsDirectory(k.image, TopTable(k.sys))
    modifies k`sys, k`dirReadnum, k.pcbArray
    ensures var o := Opening(k.image, TopTable(old(k.sys)), Some(DOT));
            && k.Valid() && k.sys == OwnStep(old(k.sys), o.fds, o.op)
            && if o.fd == -1 then status == 2 && out == NO_DIRECTORY
               else status == 0 && out == Listing(k.image, 0)
  {
    assert DOT[1] == NUL;
    var fd := Open(k, Some(DOT));
    if fd == -1 {
      return 2, NO_DIRECTORY;
    }
    status := 0;
    ghost var before := k.View();
    out := LsLoop(k);
    assert k.View() == before;
  }
}
