// What programs get of a written image: opened names, bytes, listings, searches and programs that load.
module VolumeCalls {
  import opened Bytes
  import opened CStrings
  import opened Descriptors
  import opened ProcessStacks
  import opened Kernel
  import opened SystemCall
  import opened FileCalls
  import opened KernelCalls
  import opened Volumes
  import Command
  import FS = FileSystem
  import G = Grep
  import GrepProgram
  import Sources
  import UserPrograms

  lemma AllReadable(v: Volume)
    requires Fits(v)
    ensures FilesReadable(Image(v))
  {
    hide Image, FS.FileSize, FS.InodeCount, FS.BlocksValid;
    ImageIsWellFormed(v);
    CountsComeBack(v);
    forall n | 0 <= n < FS.InodeCount(Image(v)) ensures FS.BlocksValid(Image(v), n) {
      assert FS.Readable(Image(v), n);
    }
  }

  // ---- open and read ----

  /** A name that open takes to be a file's, as C strings go. */
  predicate NamesAFile(v: Volume, i: nat)
    requires i < |v.entries|
  {
    !(STDIN <= v.entries[i].name) && !(STDOUT <= v.entries[i].name)
  }

  /** Opening a written name takes the lowest free slot, and the type written there decides what the slot is. */
  lemma OpensAsWritten(v: Volume, fds: seq<Descriptor>, i: nat)
    requires Fits(v) && NamesDiffer(v) && i < |v.entries| && NamesAFile(v, i)
    requires TableOk(fds) && FirstFree(fds, 2) < OPEN_FILES
    ensures FilesReadable(Image(v))
    ensures var o, e := Opening(Image(v), fds, Some(v.entries[i].name + [NUL])), v.entries[i];
            && 2 <= o.fd < OPEN_FILES && fds[o.fd] == CLOSED && (forall fd :: 2 <= fd < o.fd ==> fds[fd].inUse)
            && (forall fd :: 0 <= fd < OPEN_FILES && fd != o.fd ==> o.fds[fd] == fds[fd])
            && o.fds[o.fd].inUse && o.fds[o.fd].position == 0
            && (o.fds[o.fd].driver == Some(Regular) <==> e.kind == 2)
            && (o.fds[o.fd].driver == Some(Directory) <==> e.kind == 1)
            && (o.fds[o.fd].driver == Some(Rtc) <==> e.kind == 0) && (o.op == OpenClock <==> e.kind == 0)
            && (e.kind == 2 && e.inode < |v.inodes| ==>
                  FilePlace(o.fds[o.fd]) && FileOf(Image(v), o.fds[o.fd]) == Written(v, e.inode))
  {
    hide Image, FS.WellFormed, FS.Lookup, FS.Entry, FS.FileType, FS.InodeOf, Written, FS.Content, Opening, FirstFree,
         Fits, NamesDiffer;
    var e := v.entries[i];
    AllReadable(v);
    CountsComeBack(v);
    NameIsFound(v, i);
    EntryComesBack(v, i);
    KindFits(v, i);
    OpensTheEntry(Image(v), fds, e.name, i);
    if e.kind == 2 && e.inode < |v.inodes| {
      FileComesBack(v, e.inode);
    }
  }

  lemma KindFits(v: Volume, i: nat)
    requires Fits(v) && i < |v.entries|
    ensures v.entries[i].kind <= 2 && v.entries[i].inode < 0x1_0000_0000 && NUL !in v.entries[i].name
  {
  }

  /** Opening a listed name that is not the console's. */
  lemma OpensTheEntry(image: seq<Byte>, fds: seq<Descriptor>, name: seq<Byte>, i: nat)
    requires FS.WellFormed(image) && TableOk(fds) && FirstFree(fds, 2) < OPEN_FILES && i < FS.EntryCount(image)
    requires NUL !in name && !(STDIN <= name) && !(STDOUT <= name) && FS.Lookup(image, name + [NUL]) == Some(i)
    ensures var slot, fd := SlotFor(FS.Entry(image, i)), FirstFree(fds, 2);
            Opening(image, fds, Some(name + [NUL]))
            == Opened(fd, fds[fd := slot], if slot.driver == Some(Rtc) then OpenClock else Keep)
  {
    hide FS.WellFormed, FS.Lookup, FS.Entry, FS.FileType, FS.InodeOf, TableOk;
    TextIs(name + [NUL], |name|);
    assert Text(name + [NUL]) == name;
  }

  lemma SlotIs(s: System, o: Opened, r: System)
    requires Ok(s) && Booted(s) && r == OwnStep(s, o.fds, o.op) && Ok(r) && Booted(r)
    ensures TopTable(r) == o.fds && r.running == s.running
  {
  }

  /** The first read of what has just been opened: of a file its first bytes, of the directory a name, else a wait. */
  lemma FirstReadIsOfWritten(v: Volume, s: System, x: Side, i: nat, nbytes: nat, result: Result)
    requires Fits(v) && NamesDiffer(v) && i < |v.entries| && NamesAFile(v, i)
    requires v.entries[i].kind == 2 ==> v.entries[i].inode < |v.inodes|
    requires Ok(s) && Booted(s) && SideOk(x) && FirstFree(TopTable(s), 2) < OPEN_FILES && nbytes < 0x8000_0000
    requires FilesReadable(Image(v))
    requires var o := Opening(Image(v), TopTable(s), Some(v.entries[i].name + [NUL]));
             var r := OwnStep(s, o.fds, o.op);
             Ok(r) && Booted(r) && Gives(Image(v), r, x, ReadCall(o.fd, nbytes), result)
    ensures var e := v.entries[i];
            result == Delivers(if e.kind == 2 then Some(Cut(Written(v, e.inode), nbytes))
                               else if e.kind == 1 then
                                 Some(if x.place < |v.entries| then Cut(Text(EntryBytes(v.entries[x.place])), nbytes)
                                      else [])
                               else if x.past[s.running] then Some([]) else None)
  {
    hide Image, FS.WellFormed, FS.Entry, Written, EntryBytes, Opening, Text, FileOf, Ok, Booted, OwnStep, TopTable;
    var o := Opening(Image(v), TopTable(s), Some(v.entries[i].name + [NUL]));
    var r := OwnStep(s, o.fds, o.op);
    OpensAsWritten(v, TopTable(s), i);
    CountsComeBack(v);
    if x.place < |v.entries| {
      EntryAt(v, x.place);
    }
    SlotIs(s, o, r);
    if v.entries[i].kind == 2 {
      assert Written(v, v.entries[i].inode)[0..] == Written(v, v.entries[i].inode);
    }
  }

  /** A new process has its clock closed, and its first open gives descriptor 2. */
  lemma FirstOpenIsTwo(v: Volume, s: System, caller: Context, args: seq<Byte>, i: nat)
    requires Fits(v) && NamesDiffer(v) && i < |v.entries| && NamesAFile(v, i)
    requires Ok(s) && Booted(s) && Enabled(s, Execute(caller, Some(args))) && FreePid(s, 0) != -1
    ensures FilesReadable(Image(v))
    ensures var r := ExecuteStep(s, caller, Some(args));
            && Ok(r) && Booted(r) && Top(r).rtcFreq == Top(r).rtcCounter == 0 && TopTable(r) == FRESH_TABLE
            && Opening(Image(v), TopTable(r), Some(v.entries[i].name + [NUL])).fd == 2
  {
    hide Image, FS.WellFormed, Opening;
    StepOk(s, Execute(caller, Some(args)));
    FreshTableOk();
    OpensAsWritten(v, FRESH_TABLE, i);
  }

  // ---- execute ----

  lemma {:induction false} SameTextSameEntry(image: seq<Byte>, a: seq<Byte>, b: seq<Byte>, i: nat)
    requires FS.WellFormed(image) && i <= FS.EntryCount(image) && Text(a) == Text(b)
    ensures FS.FindEntry(image, a, i) == FS.FindEntry(image, b, i)
    decreases FS.EntryCount(image) - i
  {
    hide FS.Entry, FS.FileType, FS.FileSize;
    if i < FS.EntryCount(image) {
      SameTextSameEntry(image, a, b, i + 1);
    }
  }

  /** The bytes execute looks at are the first four of the file. */
  lemma MagicIsWritten(v: Volume, n: nat)
    requires Fits(v) && n < |v.inodes|
    ensures FS.WellFormed(Image(v)) && Magic(Image(v), n) == Cut(Written(v, n), 4)
  {
    hide Image, FS.WellFormed, Written, FS.Content, FS.FileSize, FS.ReadBytes, FS.ReadResult;
    FileComesBack(v, n);
    CountsComeBack(v);
    FS.ReadIsSlice(Image(v), n, 0, 4);
    assert Written(v, n)[0..] == Written(v, n);
  }

  /** A command whose first word is a written file's name loads exactly when the file begins with the ELF magic. */
  lemma LoadsAsWritten(v: Volume, i: nat, command: seq<Byte>)
    requires Fits(v) && NamesDiffer(v) && i < |v.entries| && v.entries[i].inode < |v.inodes|
    requires v.entries[i].name == Cut(Command.FirstWord(command), 31)
    ensures FS.WellFormed(Image(v))
    ensures Loadable(Image(v), Some(command)) <==> [0x7F, 0x45, 0x4C, 0x46] <= Written(v, v.entries[i].inode)
  {
    hide Image, FS.WellFormed, Written, FS.Entry, Magic, FS.InodeOf, Text, FS.FindEntry, Command.FirstWord;
    var name := v.entries[i].name;
    NameIsFound(v, i);
    EntryComesBack(v, i);
    MagicIsWritten(v, v.entries[i].inode);
    ProgramStrings(command);
    TextIs(name + [NUL], |name|);
    assert Text(name + [NUL]) == name;
    SameTextSameEntry(Image(v), ProgramName(command), name + [NUL], 0);
  }

  /** The names and the magic number that the kernel and its programs look for, as text. */
  lemma ConstantsAreText()
    ensures STDIN == Ascii("stdin") && STDOUT == Ascii("stdout")
    ensures SHELL == Ascii("shell") + [NUL] && ELF == [0x7F] + Ascii("ELF")
    ensures UserPrograms.DOT == Ascii(".") + [NUL]
  {
    assert Ascii("stdin") == [0x73, 0x74, 0x64, 0x69, 0x6E];
    assert Ascii("stdout") == [0x73, 0x74, 0x64, 0x6F, 0x75, 0x74];
    assert Ascii("shell") == [0x73, 0x68, 0x65, 0x6C, 0x6C];
    assert Ascii("ELF") == [0x45, 0x4C, 0x46] && Ascii(".") == [0x2E];
  }

  /** A written image boots, as far as its files go, when its file "shell" begins with the magic, and only then. */
  lemma BootsAsWritten(v: Volume, i: nat)
    requires Fits(v) && NamesDiffer(v) && i < |v.entries| && v.entries[i].inode < |v.inodes|
    requires v.entries[i].name == Ascii("shell")
    ensures Sound(Image(v)) <==> [0x7F] + Ascii("ELF") <= Written(v, v.entries[i].inode)
  {
    hide Image, FS.WellFormed, Written, FS.Entry, Magic, FS.InodeOf, FS.Lookup, Ascii;
    ConstantsAreText();
    NameIsFound(v, i);
    EntryComesBack(v, i);
    MagicIsWritten(v, v.entries[i].inode);
  }

  // ---- ls ----

  /** What ls prints of a written directory: its names, one to a line. */
  lemma {:induction false} ListsAsWritten(v: Volume, i: nat)
    requires Fits(v) && i <= |v.entries| && forall j :: 0 <= j < |v.entries| ==> v.entries[j].name != []
    ensures FS.WellFormed(Image(v)) && FS.EntryCount(Image(v)) == |v.entries|
    ensures UserPrograms.Listing(Image(v), i) == G.Unlines(Names(v)[i..])
    decreases |v.entries| - i
  {
    hide Image, FS.Entry, FS.Name, FS.EntryCount;
    ImageIsWellFormed(v);
    CountsComeBack(v);
    if i < |v.entries| {
      EntryComesBack(v, i);
      ListsAsWritten(v, i + 1);
      assert Names(v)[i..][1..] == Names(v)[i + 1..];
    }
  }

  function Names(v: Volume): (names: seq<seq<Byte>>)
    ensures |names| == |v.entries| && forall i :: 0 <= i < |names| ==> names[i] == v.entries[i].name
  {
    seq(|v.entries|, i requires 0 <= i < |v.entries| => v.entries[i].name)
  }

  // ---- cat ----

  /** Only the text of a name matters to open. */
  lemma OpensByText(image: seq<Byte>, fds: seq<Descriptor>, a: seq<Byte>, b: seq<Byte>)
    requires FS.WellFormed(image) && |fds| == OPEN_FILES && Text(a) == Text(b)
    ensures Opening(image, fds, Some(a)) == Opening(image, fds, Some(b))
  {
    hide FS.WellFormed, FS.FindEntry, Text;
    SameTextSameEntry(image, a, b, 0);
  }

  /** cat, given the name of a written file, prints what was written, and ends well. */
  lemma CatsAsWritten(v: Volume, s: System, i: nat)
    requires Fits(v) && NamesDiffer(v) && i < |v.entries| && NamesAFile(v, i)
    requires v.entries[i].kind == 2 && v.entries[i].inode < |v.inodes|
    requires Ok(s) && Booted(s) && FirstFree(TopTable(s), 2) < OPEN_FILES
    requires Text(Top(s).args) == v.entries[i].name != []
    ensures FilesReadable(Image(v))
    ensures Sources.NamesASource(Image(v), TopTable(s), UserPrograms.CatName(Top(s).args))
    ensures var r := UserPrograms.CatOutcome(Image(v), s);
            r.status == 0 && r.out == Written(v, v.entries[i].inode)
  {
    hide Image, FS.WellFormed, Written, Opening, FileOf, FirstFree, Text, TopTable, UserPrograms.CatName;
    var e := v.entries[i];
    OpensAsWritten(v, TopTable(s), i);
    UserPrograms.PaddedArgument(s);
    TextIs(e.name + [NUL], |e.name|);
    assert Text(e.name + [NUL]) == e.name;
    OpensByText(Image(v), TopTable(s), e.name + [NUL], UserPrograms.CatName(Top(s).args));
  }

  // ---- grep ----

  /** A line grep's window has room for, with a text of such lines. */
  predicate Short(line: seq<Byte>) {
    NEWLINE !in line && NUL !in line && |line| <= G.WINDOW
  }

  /** An entry grep searches is the clock, or a file of short lines; and none has an empty name. */
  predicate Greppable(v: Volume, texts: seq<seq<seq<Byte>>>)
    requires Fits(v)
  {
    |texts| == |v.entries| &&
    forall i :: 0 <= i < |v.entries| ==>
      var e := v.entries[i];
      && e.name != []
      && (e.name[0] != GrepProgram.PERIOD ==>
            && NamesAFile(v, i) && e.kind != 1
            && (e.kind == 2 ==> e.inode < |v.inodes| && Written(v, e.inode) == G.Unlines(texts[i])
                                && forall l :: l in texts[i] ==> Short(l)))
  }

  /** The part of grep's output that comes of an entry: the lines of its file that hold the pattern, under its name. */
  function PartOfEntry(v: Volume, texts: seq<seq<seq<Byte>>>, pattern: seq<Byte>, i: nat): seq<Byte>
    requires Fits(v) && Greppable(v, texts) && i < |v.entries|
  {
    if v.entries[i].name[0] == GrepProgram.PERIOD || v.entries[i].kind == 0 then []
    else G.Report(v.entries[i].name, pattern, texts[i])
  }

  lemma {:induction false} NoNuls(lines: seq<seq<Byte>>)
    requires forall l :: l in lines ==> NUL !in l
    ensures NUL !in G.Unlines(lines)
  {
    if lines != [] {
      NoNuls(lines[1..]);
    }
  }

  lemma ShortLines(lines: seq<seq<Byte>>)
    requires forall l :: l in lines ==> Short(l)
    ensures NUL !in G.Unlines(lines) && G.Lines(G.Unlines(lines)) == lines && G.LinesFit(G.Unlines(lines))
  {
    hide G.Lines, G.Unlines;
    assert forall i :: 0 <= i < |lines| ==> lines[i] in lines;
    NoNuls(lines);
    G.LinesComeBack(lines);
  }

  /** An entry grep searches, as written, opens; and the search of its file reports the lines as written. */
  lemma SearchesAsWritten(v: Volume, texts: seq<seq<seq<Byte>>>, fds: seq<Descriptor>, pattern: seq<Byte>, i: nat)
    requires Fits(v) && NamesDiffer(v) && Greppable(v, texts) && i < |v.entries|
    requires TableOk(fds) && FirstFree(fds, 2) < OPEN_FILES
    ensures FilesReadable(Image(v)) && FS.EntryCount(Image(v)) == |v.entries|
    ensures GrepProgram.EntryName(Image(v), i) == v.entries[i].name
    ensures GrepProgram.Searched(Image(v), i) ==>
              && Sources.NamesASource(Image(v), fds, v.entries[i].name + [NUL])
              && GrepProgram.EntryOpened(Image(v), fds, i).fd != -1
    ensures forall part :: GrepProgram.PartOf(Image(v), fds, pattern, i, part) ==>
                             part == PartOfEntry(v, texts, pattern, i)
  {
    hide Image, FS.WellFormed, FS.Entry, FS.Name, Written, Opening, FileOf, FS.EntryCount, TableOk, G.Pieces, G.Lines,
         G.Report, G.Unlines;
    AllReadable(v);
    CountsComeBack(v);
    EntryComesBack(v, i);
    var e := v.entries[i];
    if e.name[0] != GrepProgram.PERIOD {
      OpensAsWritten(v, fds, i);
      if e.kind == 2 {
        ShortLines(texts[i]);
        G.ShortLinesReportAlike(e.name, pattern, G.Unlines(texts[i]));
      }
    }
  }

  lemma {:induction false} NeverStops(v: Volume, texts: seq<seq<seq<Byte>>>, fds: seq<Descriptor>, i: nat)
    requires Fits(v) && NamesDiffer(v) && Greppable(v, texts) && i <= |v.entries|
    requires TableOk(fds) && FirstFree(fds, 2) < OPEN_FILES
    ensures FilesReadable(Image(v)) && FS.EntryCount(Image(v)) == |v.entries|
    ensures GrepProgram.Stop(Image(v), fds, i) == |v.entries|
    decreases |v.entries| - i
  {
    hide Image, FS.WellFormed, TableOk, FS.EntryCount, GrepProgram.EntryName, GrepProgram.EntryOpened,
         GrepProgram.Searched, GrepProgram.PartOf, Sources.NamesASource, Written, G.Report;
    AllReadable(v);
    CountsComeBack(v);
    if i < |v.entries| {
      SearchesAsWritten(v, texts, fds, [], i);
      NeverStops(v, texts, fds, i + 1);
    }
  }

  /** A table of a process that can open "." and one more file. */
  ghost predicate HasRoomForTwo(fds: seq<Descriptor>) {
    TableOk(fds) && FirstFree(fds, 2) < OPEN_FILES && FirstFree(fds, FirstFree(fds, 2) + 1) < OPEN_FILES
  }

  lemma OpensTheDirectory(v: Volume, fds: seq<Descriptor>, d: nat)
    requires Fits(v) && NamesDiffer(v)
    requires d < |v.entries| && v.entries[d].name == [GrepProgram.PERIOD] && v.entries[d].kind == 1
    requires HasRoomForTwo(fds)
    ensures FilesReadable(Image(v)) && UserPrograms.DotIsDirectory(Image(v), fds)
    ensures var o := Opening(Image(v), fds, Some(UserPrograms.DOT));
            o.fd != -1 && o.op == Keep && TableOk(o.fds) && FirstFree(o.fds, 2) < OPEN_FILES
  {
    hide Image, FS.WellFormed, FS.Lookup, FS.Entry, Written, FileOf;
    assert v.entries[d].name + [NUL] == UserPrograms.DOT;
    OpensAsWritten(v, fds, d);
    OpeningOk(Image(v), fds, Some(UserPrograms.DOT));
    var second := FirstFree(fds, FirstFree(fds, 2) + 1);
    assert !Opening(Image(v), fds, Some(UserPrograms.DOT)).fds[second].inUse;
  }

  lemma GrepIsReady(v: Volume, texts: seq<seq<seq<Byte>>>, s: System, d: nat)
    requires Fits(v) && NamesDiffer(v) && Greppable(v, texts)
    requires d < |v.entries| && v.entries[d].name == [GrepProgram.PERIOD] && v.entries[d].kind == 1
    requires Ok(s) && Booted(s) && HasRoomForTwo(TopTable(s))
    ensures GrepProgram.GrepReady(Image(v), s)
  {
    hide Image, FS.WellFormed, FS.Entry, Written, Opening, FileOf, FirstFree, GrepProgram.PartOf,
         GrepProgram.EntryOpened, FS.EntryCount, Sources.NamesASource, GrepProgram.EntryName, G.Report, Ok, Booted;
    OpensTheDirectory(v, TopTable(s), d);
    CountsComeBack(v);
    var fds := Opening(Image(v), TopTable(s), Some(UserPrograms.DOT)).fds;
    forall i | 0 <= i < |v.entries| && GrepProgram.Searched(Image(v), i)
      ensures Sources.NamesASource(Image(v), fds, GrepProgram.EntryName(Image(v), i) + [NUL])
    {
      SearchesAsWritten(v, texts, fds, [], i);
    }
  }

  /**
   * grep, run on a written directory of files of short lines, prints for each file in turn the lines that hold its
   * argument, under the file's name, and ends well.
   */
  lemma GrepsAsWritten(v: Volume, texts: seq<seq<seq<Byte>>>, s: System, d: nat, parts: seq<seq<Byte>>,
                       r: UserPrograms.Outcome)
    requires Fits(v) && NamesDiffer(v) && Greppable(v, texts)
    requires d < |v.entries| && v.entries[d].name == [GrepProgram.PERIOD] && v.entries[d].kind == 1
    requires Ok(s) && Booted(s) && HasRoomForTwo(TopTable(s)) && Text(Top(s).args) != []
    requires GrepProgram.GrepReady(Image(v), s) && GrepProgram.GrepDoes(Image(v), s, parts, r)
    ensures r.status == 0 && r.out == Flat(parts) && |parts| == |v.entries|
    ensures forall i :: 0 <= i < |parts| ==> parts[i] == PartOfEntry(v, texts, Text(Top(s).args), i)
  {
    hide Image, FS.WellFormed, FS.Entry, Written, Opening, FileOf, FirstFree, GrepProgram.PartOf,
         GrepProgram.EntryOpened, FS.EntryCount, Sources.NamesASource, GrepProgram.EntryName, G.Report, Text, Flat,
         GrepProgram.Searched, GrepProgram.Stop, GrepProgram.AfterEntries, GrepProgram.AllSources;
    OpensTheDirectory(v, TopTable(s), d);
    var o := Opening(Image(v), TopTable(s), Some(UserPrograms.DOT));
    SlotIs(s, o, OwnStep(s, o.fds, Keep));
    NeverStops(v, texts, o.fds, 0);
    forall i | 0 <= i < |parts| ensures parts[i] == PartOfEntry(v, texts, Text(Top(s).args), i) {
      SearchesAsWritten(v, texts, o.fds, Text(Top(s).args), i);
      assert GrepProgram.PartOf(Image(v), o.fds, Text(Top(s).args), i, parts[i]);
    }
  }
}
