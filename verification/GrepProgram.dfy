// The program syscalls/ece391grep.c on the kernel: one file, and every file of the directory.
module GrepProgram {
  import opened Bytes
  import opened CStrings
  import opened Descriptors
  import opened ProcessStacks
  import opened KernelTables
  import opened Kernel
  import opened FileCalls
  import opened SequentialReads
  import opened Sources
  import opened UserPrograms
  import FS = FileSystem
  import G = Grep
  import Runs

  // ---- One file ----

  const OPEN_FAILED := Ascii("file open failed\n")

  /** The window starts with what was kept of the file, last bytes; which bytes, is known of a file without NULs. */
  ghost predicate Kept(window: seq<Byte>, last: nat, left: seq<Byte>, clean: bool) {
    && |window| == G.WINDOW + 1 && window[G.WINDOW] != NEWLINE && last < G.WINDOW && last <= |left|
    && (clean ==> NUL !in left && window[..last] <= left)
  }

  /** From here on the file is still to be searched: what the window holds, and what has not been read. */
  function LeftOf(content: seq<Byte>, position: nat, last: nat): seq<Byte> {
    if last <= position <= |content| then content[position - last..] else []
  }

  /** Reading on into the window, behind what was kept of it, shows more of the file. */
  lemma WindowFilled(content: seq<Byte>, position: nat, last: nat, before: seq<Byte>, data: seq<Byte>, clean: bool)
    requires last <= position <= |content| && Kept(before, last, LeftOf(content, position, last), clean)
    requires data == FS.Splice(before, last, FS.Slice(content, position, G.WINDOW - last))
    ensures var cnt := |FS.Slice(content, position, G.WINDOW - last)|;
            && G.Shows(data, 0, last + cnt, cnt, LeftOf(content, position, last), clean) && position + cnt <= |content|
  {
    var part, left := FS.Slice(content, position, G.WINDOW - last), content[position - last..|content|];
    assert left == LeftOf(content, position, last);
    assert part == content[position..position + |part|];
    SliceOfSlice(content, position - last, |content|, last, last + |part|);
    assert left[last..last + |part|] == part;
    if clean {
      assert before[..last] == left[..last];
      assert data[0..last + |part|] == left[..last + |part|];
    }
  }

  /** What has been printed and what is still to be printed make up the whole report, if the file holds no NUL. */
  ghost predicate Searching(window: seq<Byte>, last: nat, content: seq<Byte>, position: nat, s: seq<Byte>,
                            fname: seq<Byte>, out: seq<Byte>) {
    && last <= position <= |content| && Kept(window, last, LeftOf(content, position, last), NUL !in content)
    && (NUL !in content ==> out + G.Found(fname, s, LeftOf(content, position, last)) == G.Found(fname, s, content))
  }

  lemma SearchStarts(window: seq<Byte>, content: seq<Byte>, s: seq<Byte>, fname: seq<Byte>)
    requires |window| == G.WINDOW + 1 && window[G.WINDOW] != NEWLINE
    ensures Searching(window, 0, content, 0, s, fname, [])
  {
    assert LeftOf(content, 0, 0) == content;
  }

  lemma SearchEnds(window: seq<Byte>, content: seq<Byte>, s: seq<Byte>, fname: seq<Byte>, out: seq<Byte>)
    requires Searching(window, 0, content, |content|, s, fname, out)
    ensures NUL !in content ==> out == G.Found(fname, s, content)
  {
    assert LeftOf(content, |content|, 0) == [];
  }

  /** One turn of the outer loop of do_one_file. */
  method NextWindow(k: Kernel, fd: nat, data: array<Byte>, last: nat, s: seq<Byte>, sLen: nat, fname: seq<Byte>,
                    ghost sys: System, ghost fds: seq<Descriptor>, ghost content: seq<Byte>, ghost position: nat,
                    ghost out: seq<Byte>)
    returns (cnt: nat, kept: nat, part: seq<Byte>)
    requires ReadSoFar(k, sys, fds, fd, content, position)
    requires NUL in s && sLen == |Text(s)| && NUL in fname
    requires Searching(data[..], last, content, position, s, fname, out)
    modifies k`sys, k.pcbArray, data
    ensures if cnt == 0 then ReadOut(k, sys, fds, fd, content) && kept == 0 && position == |content|
            else ReadSoFar(k, sys, fds, fd, content, position + cnt)
    ensures Searching(data[..], kept, content, position + cnt, s, fname, out + part)
  {
    hide ReadSoFar, ReadOut, FS.Slice, FS.Splice, G.Found;
    ghost var before := data[..];
    cnt := ReadMore(k, fd, data, last, G.WINDOW - last, sys, fds, content, position);
    kept, part := SearchWindow(data, last, cnt, s, sLen, fname, content, position, before, out);
  }

  method SearchWindow(data: array<Byte>, last: nat, cnt: nat, s: seq<Byte>, sLen: nat, fname: seq<Byte>,
                      ghost content: seq<Byte>, ghost position: nat, ghost before: seq<Byte>, ghost out: seq<Byte>)
    returns (kept: nat, part: seq<Byte>)
    requires NUL in s && sLen == |Text(s)| && NUL in fname
    requires Searching(before, last, content, position, s, fname, out)
    requires data[..] == FS.Splice(before, last, FS.Slice(content, position, G.WINDOW - last))
    requires cnt == |FS.Slice(content, position, G.WINDOW - last)|
    modifies data
    ensures Searching(data[..], kept, content, position + cnt, s, fname, out + part)
    ensures cnt == 0 ==> kept == 0
  {
    hide G.Found, FS.Slice, FS.Splice;
    WindowFilled(content, position, last, before, data[..], NUL !in content);
    ghost var left := LeftOf(content, position, last);
    ghost var rest;
    kept, part, rest := G.ScanWindow(data, last + cnt, cnt, s, sLen, fname, left, G.Found(fname, s, left),
                                     NUL !in content);
    assert rest == LeftOf(content, position + cnt, kept);
    assert data[..][..kept] == data[..kept];
    G.Appended(out, part, G.Found(fname, s, rest));
  }

  /** The outer loop: window after window until a read delivers nothing. */
  method ScanFile(k: Kernel, fd: nat, data: array<Byte>, s: seq<Byte>, sLen: nat, fname: seq<Byte>,
                  ghost sys: System, ghost fds: seq<Descriptor>, ghost content: seq<Byte>) returns (out: seq<Byte>)
    requires ReadSoFar(k, sys, fds, fd, content, 0) && NUL in s && sLen == |Text(s)| && NUL in fname
    requires Searching(data[..], 0, content, 0, s, fname, [])
    modifies k`sys, k.pcbArray, data
    ensures ReadOut(k, sys, fds, fd, content)
    ensures Searching(data[..], 0, content, |content|, s, fname, out)
  {
    hide ReadSoFar, ReadOut, Kept, G.Found;
    var last := 0;
    ghost var position := 0;
    out := [];
    while true
      invariant ReadSoFar(k, sys, fds, fd, content, position)
      invariant Searching(data[..], last, content, position, s, fname, out)
      decreases |content| - position
    {
      var cnt, kept, part := NextWindow(k, fd, data, last, s, sLen, fname, sys, fds, content, position, out);
      out, last, position := out + part, kept, position + cnt;
      if cnt == 0 {
        return;
      }
    }
  }

  method SearchFile(k: Kernel, fd: nat, data: array<Byte>, s: seq<Byte>, fname: seq<Byte>,
                    ghost sys: System, ghost fds: seq<Descriptor>, ghost content: seq<Byte>) returns (out: seq<Byte>)
    requires ReadSoFar(k, sys, fds, fd, content, 0) && NUL in s && NUL in fname
    requires data.Length == G.WINDOW + 1 && data[G.WINDOW] != NEWLINE
    modifies k`sys, k.pcbArray, data
    ensures ReadOut(k, sys, fds, fd, content) && data[G.WINDOW] != NEWLINE
    ensures NUL !in content ==> out == G.Found(fname, s, content)
  {
    hide ReadSoFar, ReadOut, LeftOf, G.Found;
    var sLen := StrLen(s);
    SearchStarts(data[..], content, s, fname);
    out := ScanFile(k, fd, data, s, sLen, fname, sys, fds, content);
    SearchEnds(data[..], content, s, fname, out);
  }

  /**
   * grep on one entry of the directory always ends, never leaves its buffer, and leaves the caller's descriptors as
   * they were. Of a file without NULs it prints, in file order, each piece that holds the search string; of the clock,
   * which it waits for once, nothing. The buffer is uninitialised; all that matters is that its last byte is no
   * newline.
   */
  method DoOneFile(k: Kernel, s: seq<Byte>, fname: seq<Byte>, data: array<Byte>) returns (status: int, out: seq<Byte>)
    requires FilesReadable(k.image) && k.Valid() && Booted(k.sys) && NUL in s && NUL in fname
    requires data.Length == G.WINDOW + 1 && data[G.WINDOW] != NEWLINE
    requires NamesASource(k.image, TopTable(k.sys), fname)
    modifies k`sys, k`dirReadnum, k.pcbArray, data
    ensures k.Valid() && k.dirReadnum == old(k.dirReadnum) && data[G.WINDOW] != NEWLINE
    ensures var o := Opening(k.image, TopTable(old(k.sys)), Some(fname));
            if o.fd == -1 then status == -1 && out == OPEN_FAILED && k.sys == old(k.sys)
            else
              && status == 0 && k.sys == (if o.op == OpenClock then ClockWaited(old(k.sys)) else old(k.sys))
              && var content := Delivered(k.image, o.fds[o.fd]);
                 NUL !in content ==> out == G.Report(Text(fname), Text(s), G.Pieces(content))
  {
    hide AllRecorded, LiveRecorded, TerminalsRecorded, Current, ProcessOk, TableOk, OwnStep, FilesReadable,
         NamesASource, ReadSoFar, ReadOut, ClockWaited, Delivered;
    ghost var sys := k.sys;
    var fd;
    ghost var fds, content;
    fd, fds, content := OpenToRead(k, fname);
    if fd == -1 {
      return -1, OPEN_FAILED;
    }
    out := SearchFile(k, fd, data, s, fname, sys, fds, content);
    status := CloseSource(k, fd, sys, fname, content);
  }

  // ---- The directory ----

  const PERIOD: Byte := 0x2E
  const NO_ARGUMENT := Ascii("could not read argument\n")

  function EntryName(image: seq<Byte>, i: nat): seq<Byte>
    requires |image| >= 4096 && i < FS.EntryCount(image) <= 63
  {
    FS.Name(FS.Entry(image, i))
  }

  /** grep passes over entries whose name begins with a period, and searches the others. */
  predicate Searched(image: seq<Byte>, i: nat)
    requires |image| >= 4096 && i < FS.EntryCount(image) <= 63
  {
    EntryName(image, i) != [] && EntryName(image, i)[0] != PERIOD
  }

  /** What open makes of an entry's name. */
  ghost function EntryOpened(image: seq<Byte>, fds: seq<Descriptor>, i: nat): (o: Opened)
    requires FS.WellFormed(image) && TableOk(fds) && i < FS.EntryCount(image)
    ensures -1 <= o.fd < |o.fds|
  {
    Opening(image, fds, Some(EntryName(image, i) + [NUL]))
  }

  /** No entry that grep searches names the console or is a directory. */
  ghost predicate AllSources(image: seq<Byte>, fds: seq<Descriptor>) {
    FilesReadable(image) && TableOk(fds) &&
    forall i :: 0 <= i < FS.EntryCount(image) && Searched(image, i) ==>
                  NamesASource(image, fds, EntryName(image, i) + [NUL])
  }

  /** The first entry from i on at which grep stops: one with an empty name, or one that cannot be opened. */
  ghost function Stop(image: seq<Byte>, fds: seq<Descriptor>, i: nat): (n: nat)
    requires FS.WellFormed(image) && TableOk(fds) && i <= FS.EntryCount(image)
    ensures i <= n <= FS.EntryCount(image)
    decreases FS.EntryCount(image) - i
  {
    if i == FS.EntryCount(image) || EntryName(image, i) == [] then i
    else if Searched(image, i) && EntryOpened(image, fds, i).fd == -1 then i
    else Stop(image, fds, i + 1)
  }

  /** The entry is opened and is the clock. */
  ghost predicate IsClock(image: seq<Byte>, fds: seq<Descriptor>, i: nat)
    requires FS.WellFormed(image) && TableOk(fds) && i < FS.EntryCount(image)
  {
    Searched(image, i) && EntryOpened(image, fds, i).op == OpenClock
  }

  /** The part of the output that an entry's turn gives: nothing, or the report if the file holds no NUL. */
  ghost predicate PartOf(image: seq<Byte>, fds: seq<Descriptor>, pattern: seq<Byte>, i: nat, part: seq<Byte>)
    requires FilesReadable(image) && TableOk(fds) && i < FS.EntryCount(image)
  {
    if !Searched(image, i) || IsClock(image, fds, i) then part == []
    else
      var o := EntryOpened(image, fds, i);
      o.fd != -1 && (NUL !in FileOf(image, o.fds[o.fd]) ==>
                       part == G.Report(EntryName(image, i), pattern, G.Pieces(FileOf(image, o.fds[o.fd]))))
  }

  /** What searching the first n entries does to the machine: each clock among them is waited for once. */
  ghost function AfterEntries(image: seq<Byte>, s: System, n: nat): (r: System)
    requires FS.WellFormed(image) && Ok(s) && Booted(s) && n <= FS.EntryCount(image)
    ensures Ok(r) && Booted(r) && TopTable(r) == TopTable(s)
  {
    if n == 0 then s
    else
      var r := AfterEntries(image, s, n - 1);
      ClockReadOk(r, TopTable(r));
      if IsClock(image, TopTable(s), n - 1) then ClockWaited(r) else r
  }

  /** What an entry's turn comes to, by the same tests as the program makes. */
  lemma TurnIs(image: seq<Byte>, fds: seq<Descriptor>, n: nat)
    requires AllSources(image, fds) && n < FS.EntryCount(image)
    ensures EntryName(image, n) == [] ==> Stop(image, fds, n) == n
    ensures EntryName(image, n) != [] && !Searched(image, n) ==>
              Stop(image, fds, n) == Stop(image, fds, n + 1) && !IsClock(image, fds, n) && PartOf(image, fds, [], n, [])
    ensures Searched(image, n) ==>
              && NamesASource(image, fds, EntryName(image, n) + [NUL])
              && Stop(image, fds, n) == if EntryOpened(image, fds, n).fd == -1 then n else Stop(image, fds, n + 1)
  {
  }

  /** A searched entry's turn. */
  method SearchEntry(k: Kernel, search: seq<Byte>, fname: seq<Byte>, data: array<Byte>, ghost n: nat)
    returns (done: bool, status: int, part: seq<Byte>)
    requires k.Valid() && Booted(k.sys) && AllSources(k.image, TopTable(k.sys)) && NUL in search
    requires n < FS.EntryCount(k.image) && Searched(k.image, n) && fname == EntryName(k.image, n) + [NUL]
    requires data.Length == G.WINDOW + 1 && data[G.WINDOW] != NEWLINE
    modifies k`sys, k`dirReadnum, k.pcbArray, data
    ensures k.Valid() && data[G.WINDOW] != NEWLINE && k.dirReadnum == old(k.dirReadnum)
    ensures done == (EntryOpened(k.image, TopTable(old(k.sys)), n).fd == -1)
    ensures done ==> k.sys == old(k.sys) && status == 3 && part == OPEN_FAILED
    ensures !done ==> PartOf(k.image, TopTable(old(k.sys)), Text(search), n, part)
    ensures !done ==> k.sys == if IsClock(k.image, TopTable(old(k.sys)), n) then ClockWaited(old(k.sys)) else old(k.sys)
  {
    hide AllRecorded, LiveRecorded, TerminalsRecorded, Current, ProcessOk, TableOk, ClockWaited, FS.BlocksValid,
         Opening, Text, Stop, NamesASource;
    TurnIs(k.image, TopTable(k.sys), n);
    NameIsText(k.image, n);
    EntryDelivers(k.image, TopTable(k.sys), n);
    status, part := DoOneFile(k, search, fname, data);
    done := status != 0;
    if done {
      status := 3;
    }
  }

  /** The text grep prints before a colon is the entry's name. */
  lemma NameIsText(image: seq<Byte>, n: nat)
    requires FS.WellFormed(image) && n < FS.EntryCount(image)
    ensures Text(EntryName(image, n) + [NUL]) == EntryName(image, n)
  {
    hide FS.LittleEndian;
    TextIsPrefix(FS.Entry(image, n));
    TextIs(EntryName(image, n) + [NUL], |EntryName(image, n)|);
  }

  /** What reading a searched entry delivers. */
  lemma EntryDelivers(image: seq<Byte>, fds: seq<Descriptor>, n: nat)
    requires AllSources(image, fds) && n < FS.EntryCount(image) && Searched(image, n)
    ensures var o := EntryOpened(image, fds, n);
            o.fd != -1 ==>
              && Delivered(image, o.fds[o.fd]) == (if o.op == OpenClock then [] else FileOf(image, o.fds[o.fd]))
  {
    hide FS.Lookup, FileOf, Text, FS.LittleEndian;
    assert NamesASource(image, fds, EntryName(image, n) + [NUL]);
  }

  /** One turn of the loop of grep: the next entry, and the file it names. */
  method NextEntry(k: Kernel, search: seq<Byte>, buf: array<Byte>, data: array<Byte>)
    returns (done: bool, status: int, part: seq<Byte>)
    requires k.Valid() && Booted(k.sys) && AllSources(k.image, TopTable(k.sys)) && NUL in search
    requires k.dirReadnum <= FS.EntryCount(k.image)
    requires buf.Length == 33 && data.Length == G.WINDOW + 1 && data[G.WINDOW] != NEWLINE && buf != data
    modifies k`sys, k`dirReadnum, k.pcbArray, buf, data
    ensures k.Valid() && data[G.WINDOW] != NEWLINE
    ensures var n, s := old(k.dirReadnum), old(k.sys);
            if done then
              && Stop(k.image, TopTable(s), n) == n && k.sys == s
              && if n < FS.EntryCount(k.image) && EntryName(k.image, n) != [] then status == 3 && part == OPEN_FAILED
                 else status == 0 && part == []
            else
              && n < FS.EntryCount(k.image) && k.dirReadnum == n + 1
              && Stop(k.image, TopTable(s), n) == Stop(k.image, TopTable(s), n + 1)
              && PartOf(k.image, TopTable(s), Text(search), n, part)
              && k.sys == if IsClock(k.image, TopTable(s), n) then ClockWaited(s) else s
  {
    hide AllRecorded, LiveRecorded, TerminalsRecorded, Current, ProcessOk, TableOk, ClockWaited, FS.BlocksValid,
         EntryOpened, Text, NamesASource;
    ghost var n, s := k.dirReadnum, k.sys;
    var cnt := DirRead(k, buf, 32);
    if cnt == 0 {
      return true, 0, [];
    }
    NameRead(FS.Entry(k.image, n), buf[..], cnt);
    TurnIs(k.image, TopTable(s), n);
    assert buf[..cnt][0] == buf[0];
    if buf[0] == PERIOD {
      return false, 0, [];
    }
    buf[cnt] := NUL;
    assert buf[..cnt + 1] == EntryName(k.image, n) + [NUL];
    done, status, part := SearchEntry(k, search, buf[..cnt + 1], data, n);
  }

  /**
   * The loop of grep over the directory: one part for each entry, in order, up to the one it stops at. It always ends.
   */
  method GrepLoop(k: Kernel, search: seq<Byte>, data: array<Byte>)
    returns (status: int, out: seq<Byte>, ghost parts: seq<seq<Byte>>)
    requires k.Valid() && Booted(k.sys) && AllSources(k.image, TopTable(k.sys)) && NUL in search && k.dirReadnum == 0
    requires data.Length == G.WINDOW + 1 && data[G.WINDOW] != NEWLINE
    modifies k`sys, k`dirReadnum, k.pcbArray, data
    ensures k.Valid() && Grepped(k.image, old(k.sys), Text(search), parts, Outcome(status, out, k.sys))
  {
    hide AllRecorded, LiveRecorded, TerminalsRecorded, Current, ProcessOk, TableOk, ClockWaited, FS.BlocksValid,
         PartOf, IsClock, Stop, EntryOpened, Searched, FS.Name, FS.LittleEndian;
    var buf := new Byte[33];
    ghost var s, fds, n := k.sys, TopTable(k.sys), 0;
    out, parts := [], [];
    while true
      invariant k.Valid() && n == k.dirReadnum <= FS.EntryCount(k.image) && data[G.WINDOW] != NEWLINE
      invariant k.sys == AfterEntries(k.image, s, n) && Stop(k.image, fds, 0) == Stop(k.image, fds, n)
      invariant |parts| == n && out == Flat(parts)
      invariant forall j :: 0 <= j < n ==> PartOf(k.image, fds, Text(search), j, parts[j])
      decreases FS.EntryCount(k.image) - k.dirReadnum
    {
      var done, st, part := NextEntry(k, search, buf, data);
      if done {
        return st, out + part, parts;
      }
      FlatInParts(parts, [part]);
      assert Flat([part]) == part;
      n, parts, out := n + 1, parts + [part], out + part;
    }
  }

  /** grep's output is the parts of the entries up to where it stops, and a message if it stops short. */
  ghost predicate Grepped(image: seq<Byte>, s: System, pattern: seq<Byte>, parts: seq<seq<Byte>>, r: Outcome) {
    && Ok(s) && Booted(s) && AllSources(image, TopTable(s))
    && var n := Stop(image, TopTable(s), 0);
    && |parts| == n && (forall j :: 0 <= j < n ==> PartOf(image, TopTable(s), pattern, j, parts[j]))
    && r.sys == AfterEntries(image, s, n)
    && if n < FS.EntryCount(image) && EntryName(image, n) != [] then
         r.status == 3 && r.out == Flat(parts) + OPEN_FAILED
       else r.status == 0 && r.out == Flat(parts)
  }

  ghost predicate GrepReady(image: seq<Byte>, s: System) {
    && FilesReadable(image) && Ok(s) && Booted(s) && DotIsDirectory(image, TopTable(s))
    && var o := Opening(image, TopTable(s), Some(DOT));
       o.fd != -1 ==> AllSources(image, o.fds)
  }

  /** What grep does: nothing without an argument or a directory; else the directory's files, one after another. */
  ghost predicate GrepDoes(image: seq<Byte>, s: System, parts: seq<seq<Byte>>, r: Outcome)
    requires GrepReady(image, s)
  {
    var o := Opening(image, TopTable(s), Some(DOT));
    if Text(Top(s).args) == [] then r == Outcome(3, NO_ARGUMENT, s)
    else if o.fd == -1 then r == Outcome(2, NO_DIRECTORY, s)
    else Grepped(image, OwnStep(s, o.fds, Keep), Text(Top(s).args), parts, r)
  }

  method Grep(k: Kernel, data: array<Byte>) returns (status: int, out: seq<Byte>, ghost parts: seq<seq<Byte>>)
    requires k.Valid() && GrepReady(k.image, k.sys) && data.Length == G.WINDOW + 1 && data[G.WINDOW] != NEWLINE
    modifies k`sys, k`dirReadnum, k.pcbArray, data
    ensures k.Valid() && GrepDoes(k.image, old(k.sys), parts, Outcome(status, out, k.sys))
  {
    hide AllRecorded, LiveRecorded, TerminalsRecorded, Current, AllSources, Grepped, FilesReadable;
    var search := new Byte[1024];
    var r := GetArgs(k, search, 1024);
    if r != 0 {
      return 3, NO_ARGUMENT, [];
    }
    assert search[..1024] == search[..];
    PaddedArgument(k.sys);
    status, out, parts := GrepDirectory(k, search[..], data);
  }

  /** grep once it has its argument. */
  method GrepDirectory(k: Kernel, search: seq<Byte>, data: array<Byte>)
    returns (status: int, out: seq<Byte>, ghost parts: seq<seq<Byte>>)
    requires k.Valid() && GrepReady(k.image, k.sys) && data.Length == G.WINDOW + 1 && data[G.WINDOW] != NEWLINE
    requires NUL in search && Text(search) == Text(Top(k.sys).args) != []
    modifies k`sys, k`dirReadnum, k.pcbArray, data
    ensures k.Valid() && GrepDoes(k.image, old(k.sys), parts, Outcome(status, out, k.sys))
  {
    hide AllRecorded, LiveRecorded, TerminalsRecorded, Current, AllSources, Grepped, OwnStep;
    ghost var s := k.sys;
    DirectoryOpens(k.image, s);
    assert DOT[1] == NUL;
    var fd := Open(k, Some(DOT));
    if fd == -1 {
      return 2, NO_DIRECTORY, [];
    }
    status, out, parts := GrepLoop(k, search, data);
  }

  lemma DirectoryOpens(image: seq<Byte>, s: System)
    requires FilesReadable(image) && Ok(s) && Booted(s) && DotIsDirectory(image, TopTable(s))
    ensures var o := Opening(image, TopTable(s), Some(DOT));
            && TableOk(o.fds) && o.op == Keep && Ok(OwnStep(s, o.fds, Keep)) && Booted(OwnStep(s, o.fds, Keep))
            && TopTable(OwnStep(s, o.fds, Keep)) == o.fds
            && (o.fd == -1 ==> OwnStep(s, o.fds, Keep) == s)
            && (o.fd != -1 ==> o.fd < OPEN_FILES && o.fds[o.fd].driver == Some(Directory))
  {
    OpeningOk(image, TopTable(s), Some(DOT));
    OwnTwice(s, Opening(image, TopTable(s), Some(DOT)).fds, TopTable(s));
    OwnNothing(s);
  }
}
