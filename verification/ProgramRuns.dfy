// What programs do over a whole run, preempted at any place: readers of the directory, and cat.
module ProgramRuns {
  import opened Bytes
  import opened CStrings
  import opened Descriptors
  import opened ProcessStacks
  import opened Kernel
  import opened FileCalls
  import opened Runs
  import opened Handovers
  import opened Typewriters
  import opened KernelCalls
  import opened KernelRuns
  import opened ReadRuns
  import opened SystemCall
  import V = Screen
  import G = Grep
  import ScreenLines
  import FS = FileSystem

  // ---- The devices along a run ----

  lemma FollowsUntil(image: seq<Byte>, s: System, x: Side, calls: seq<Call>, es: seq<Event>, results: seq<Result>,
                     n: nat)
    requires Ran(image, s, x, calls, es, results) && n <= |es|
    ensures Legal(s, es[..n]) && Follows(image, s, x, calls[..n], es[..n])
  {
    hide Ok, FilesReadable, SideOk, Legal, Follows, AllPolled, Gives, Answers, Allowed, Enabled;
    if n < |es| {
      assert GivenAt(image, s, x, calls, es, results, n);
    } else {
      assert es[..n] == es && calls[..n] == calls;
    }
  }

  /** The devices after the first n calls. */
  ghost function SideAt(image: seq<Byte>, s: System, x: Side, calls: seq<Call>, es: seq<Event>, results: seq<Result>,
                        n: nat): (y: Side)
    requires Ran(image, s, x, calls, es, results) && n <= |es|
    ensures SideOk(y)
  {
    FollowsUntil(image, s, x, calls, es, results, n);
    SideThen(image, s, x, calls[..n], es[..n])
  }

  /** Call n finds the machine and the devices as they then are, and leaves them as it should. */
  lemma CallAt(image: seq<Byte>, s: System, x: Side, calls: seq<Call>, es: seq<Event>, results: seq<Result>, n: nat)
    requires Ran(image, s, x, calls, es, results) && n < |es|
    ensures var r, y := After(s, es, n), SideAt(image, s, x, calls, es, results, n);
            && Allowed(r, y, calls[n]) && Enabled(r, es[n]) && Answers(image, r, y, calls[n], es[n])
            && Gives(image, r, y, calls[n], results[n]) && After(s, es, n + 1) == Step(r, es[n])
            && SideAt(image, s, x, calls, es, results, n + 1) == SideAfter(image, r, calls[n], y)
  {
    hide Ok, FilesReadable, SideOk, Legal, Run, Step, Follows, SideThen, SideAfter, AllPolled, Gives, Answers, Allowed,
         Enabled;
    assert GivenAt(image, s, x, calls, es, results, n);
    FollowsUntil(image, s, x, calls, es, results, n);
    FollowsUntil(image, s, x, calls, es, results, n + 1);
    AfterNext(s, es, n);
    OneMoreCall(image, s, x, calls[..n], es[..n], calls[n], es[n]);
    assert calls[..n] + [calls[n]] == calls[..n + 1] && es[..n] + [es[n]] == es[..n + 1];
  }

  // ---- The directory ----

  ghost predicate ReadsDirectory(s: System, call: Call)
    requires Ok(s)
  {
    KernelCalls.Reads(s, call, Directory)
  }

  /**
   * How many times the directory has been read since it was last opened, by whatever programs; as long as it has not
   * been opened, the count goes on from the place it had.
   */
  ghost function Turn(image: seq<Byte>, s: System, calls: seq<Call>, es: seq<Event>, place: nat, n: nat): nat
    requires FilesReadable(image) && Ok(s) && Legal(s, es) && n <= |calls| == |es|
  {
    if n == 0 then place
    else if OpensDirectory(image, After(s, es, n - 1), calls[n - 1]) then 0
    else
      Turn(image, s, calls, es, place, n - 1) + if ReadsDirectory(After(s, es, n - 1), calls[n - 1]) then 1 else 0
  }

  lemma {:induction false} PlaceIsTurn(image: seq<Byte>, s: System, x: Side, calls: seq<Call>, es: seq<Event>,
                                       results: seq<Result>, n: nat)
    requires Ran(image, s, x, calls, es, results) && n <= |es|
    ensures var place, turn := SideAt(image, s, x, calls, es, results, n).place,
                               Turn(image, s, calls, es, x.place, n);
            place == turn || (place >= FS.EntryCount(image) && turn >= FS.EntryCount(image))
  {
    hide Ok, FilesReadable, SideOk, Legal, Run, Step, Follows, AllPolled, Gives, Answers, Allowed, Enabled, GivenAt,
         OpensDirectory, ReadsDirectory, FS.WellFormed, PastAfter, TypingAfter, PictureAfter, KernelCalls.Reads;
    if n == 0 {
      assert es[..0] == [] && calls[..0] == [];
    } else {
      PlaceIsTurn(image, s, x, calls, es, results, n - 1);
      CallAt(image, s, x, calls, es, results, n - 1);
      NextPlace(image, After(s, es, n - 1), calls[n - 1], SideAt(image, s, x, calls, es, results, n - 1));
    }
  }

  lemma NextPlace(image: seq<Byte>, s: System, call: Call, x: Side)
    requires FilesReadable(image) && Ok(s) && SideOk(x) && Allowed(s, x, call)
    ensures SideAfter(image, s, call, x).place
            == if OpensDirectory(image, s, call) then 0
               else if ReadsDirectory(s, call) && x.place < FS.EntryCount(image) then x.place + 1
               else x.place
  {
    hide Ok, FilesReadable, Overruns, PastAfter, TypingAfter, PictureAfter, FS.WellFormed, KernelCalls.Reads,
         OpensDirectory;
  }

  /**
   * In any run a read of the directory gets the name of the entry whose turn it is, cut to the read's size: one entry
   * for each read, whoever makes it, since the directory was last opened, by whomever. Past the last it gets nothing.
   */
  lemma DirectoryInTurn(image: seq<Byte>, s: System, x: Side, calls: seq<Call>, es: seq<Event>, results: seq<Result>,
                        n: nat)
    requires Ran(image, s, x, calls, es, results) && n < |es| && ReadsDirectory(After(s, es, n), calls[n])
    ensures results[n]
            == Delivers(Some(NameChunk(image, Turn(image, s, calls, es, x.place, n), calls[n].count)))
  {
    hide Ok, FilesReadable, SideOk, Legal, Run, Step, Follows, AllPolled, Answers, Enabled, GivenAt, FS.WellFormed,
         SideAfter, SideThen, Turn, Overruns;
    CallAt(image, s, x, calls, es, results, n);
    PlaceIsTurn(image, s, x, calls, es, results, n);
  }

  /** The running process is the one at place i of terminal t, the innermost there. */
  ghost predicate Running(s: System, t: nat, i: nat) {
    s.running == t < |s.consoles| && |s.consoles[t].stack| == i + 1
  }

  /** What that process's reads of the directory, among the calls from m to n, have delivered. */
  ghost function NamesGot(s: System, calls: seq<Call>, es: seq<Event>, results: seq<Result>, t: nat, i: nat,
                          m: nat, n: nat): seq<seq<Byte>>
    requires Ok(s) && Legal(s, es) && |calls| == |es| == |results| && m <= n <= |es|
  {
    if n == m then []
    else
      NamesGot(s, calls, es, results, t, i, m, n - 1)
      + if ReadsDirectory(After(s, es, n - 1), calls[n - 1]) && Running(After(s, es, n - 1), t, i)
             && results[n - 1].Delivers? then
          [results[n - 1].bytes.GetOr([])]
        else []
  }

  /** From m to n nobody opens the directory, and nobody but that process reads it, 32 bytes each time. */
  ghost predicate SoleReader(image: seq<Byte>, s: System, calls: seq<Call>, es: seq<Event>, t: nat, i: nat,
                             m: nat, n: nat)
    requires FilesReadable(image) && Ok(s) && Legal(s, es) && n <= |calls| == |es|
  {
    forall q :: m <= q < n ==>
      var r := After(s, es, q);
      && !OpensDirectory(image, r, calls[q])
      && (ReadsDirectory(r, calls[q]) ==> Running(r, t, i) && calls[q].count == FS.NAME_LENGTH)
  }

  /** The name listed at a place, or nothing. */
  ghost function NameAt(image: seq<Byte>, place: nat): seq<Byte>
    requires FS.WellFormed(image)
  {
    if place < FS.EntryCount(image) then FS.Name(FS.Entry(image, place)) else []
  }

  /**
   * A process that has opened the directory and is then alone in reading it gets every name once and in order, however
   * often it is preempted, and after the last name nothing.
   */
  lemma {:induction false} SoleReaderGetsAll(image: seq<Byte>, s: System, x: Side, calls: seq<Call>, es: seq<Event>,
                                             results: seq<Result>, t: nat, i: nat, m: nat, n: nat)
    requires Ran(image, s, x, calls, es, results) && 0 < m <= n <= |es|
    requires OpensDirectory(image, After(s, es, m - 1), calls[m - 1])
    requires SoleReader(image, s, calls, es, t, i, m, n)
    ensures var names := NamesGot(s, calls, es, results, t, i, m, n);
            && |names| == Turn(image, s, calls, es, x.place, n)
            && forall j :: 0 <= j < |names| ==> names[j] == NameAt(image, j)
  {
    hide Ok, SideOk, Legal, Run, Step, Follows, AllPolled, Answers, Gives, Enabled, GivenAt, FS.WellFormed,
         SideAfter, SideThen, Overruns, OpensDirectory, ReadsDirectory, Running, Text;
    if n > m {
      SoleReaderGetsAll(image, s, x, calls, es, results, t, i, m, n - 1);
      if ReadsDirectory(After(s, es, n - 1), calls[n - 1]) {
        DirectoryInTurn(image, s, x, calls, es, results, n - 1);
      }
    }
  }

  // ---- cat ----

  /** The bytes that process has read and not yet printed. */
  ghost function Owed(s: System, calls: seq<Call>, es: seq<Event>, results: seq<Result>, t: nat, i: nat,
                      m: nat, n: nat): seq<Byte>
    requires Ok(s) && Legal(s, es) && |calls| == |es| == |results| && m <= n <= |es|
  {
    if n == m then []
    else if !Running(After(s, es, n - 1), t, i) || !ByProgram(calls[n - 1]) then
      Owed(s, calls, es, results, t, i, m, n - 1)
    else if calls[n - 1].ReadCall? && results[n - 1].Delivers? then results[n - 1].bytes.GetOr([])
    else []
  }

  /** All that it has printed with the calls from m to n. */
  ghost function Printed(s: System, calls: seq<Call>, es: seq<Event>, t: nat, i: nat, m: nat, n: nat): seq<Byte>
    requires Ok(s) && Legal(s, es) && m <= n <= |calls| == |es|
  {
    if n == m then []
    else Printed(s, calls, es, t, i, m, n - 1) + Output(After(s, es, n - 1), calls[n - 1], t, i)
  }

  ghost function Output(s: System, call: Call, t: nat, i: nat): seq<Byte> {
    if Running(s, t, i) && call.PrintCall? && call.buffer.Some? && 0 <= call.nbytes <= |call.buffer.value| then
      call.buffer.value[..call.nbytes]
    else []
  }

  /** The next call of cat's loop: a read of 1024 bytes, or, if that got some, a write of as many from its buffer. */
  predicate NextOfCat(owed: seq<Byte>, call: Call, fd: nat) {
    if owed == [] then call == ReadCall(fd, 1024)
    else call.PrintCall? && call.buffer.Some? && call.nbytes == |owed| && owed <= call.buffer.value
  }

  /** From m to n that process runs the loop of cat; all others do what they like. */
  ghost predicate LikeCat(s: System, calls: seq<Call>, es: seq<Event>, results: seq<Result>, t: nat, i: nat, fd: nat,
                          m: nat, n: nat)
    requires Ok(s) && Legal(s, es) && |calls| == |es| == |results| && n <= |es|
  {
    forall q :: m <= q < n && Running(After(s, es, q), t, i) && ByProgram(calls[q]) ==>
                  NextOfCat(Owed(s, calls, es, results, t, i, m, q), calls[q], fd)
  }

  /** The process is the innermost of its terminal and has a file open. */
  ghost predicate Settled(s: System, t: nat, i: nat, fd: nat) {
    HasOpen(s, t, i, fd) && |s.consoles[t].stack| == i + 1
  }

  /** A step that is none of terminal t's, or a call on descriptors, leaves its stack with the same processes. */
  lemma StaysInnermost(s: System, e: Event, t: nat)
    requires Ok(s) && Enabled(s, e) && t < |s.consoles| && s.consoles[t].stack != []
    requires s.running == t ==> !e.Execute? && !e.Halt?
    ensures t < |Step(s, e).consoles| && |Step(s, e).consoles[t].stack| == |s.consoles[t].stack|
    ensures forall i :: 0 <= i < |s.consoles[t].stack| && !(e.Own? && s.running == t && i == |s.consoles[t].stack| - 1)
              ==> Step(s, e).consoles[t].stack[i].fds == s.consoles[t].stack[i].fds
  {
    hide Distinct, TableOk;
    if e.Tick? && !Booted(s) && s.consoles[s.shellTid].stack == [] {
      BootPid(s);
    }
  }

  lemma CatsEvent(image: seq<Byte>, s: System, x: Side, call: Call, e: Event, fd: nat, owed: seq<Byte>)
    requires FilesReadable(image) && Ok(s) && SideOk(x) && Allowed(s, x, call) && Answers(image, s, x, call, e)
    requires ByProgram(call) && NextOfCat(owed, call, fd)
    requires Booted(s) && fd < OPEN_FILES && TopTable(s)[fd].driver == Some(Regular) && TableOk(TopTable(s))
    ensures e.Own? && fd < |e.fds| && e.fds[fd].driver == Some(Regular)
  {
    hide Ok, FilesReadable, SideOk, Overruns, Chunk, Acted;
  }

  lemma NobodysEvent(image: seq<Byte>, s: System, x: Side, call: Call, e: Event)
    requires FilesReadable(image) && Ok(s) && SideOk(x) && Allowed(s, x, call) && Answers(image, s, x, call, e)
    requires !ByProgram(call)
    ensures !e.Own? && !e.Execute? && !e.Halt?
  {
    hide Ok, FilesReadable, SideOk, Overruns, Acted;
  }

  /** What cat calls, and whatever else happens, keeps its file open. */
  lemma StaysSettled(image: seq<Byte>, s: System, x: Side, call: Call, e: Event, t: nat, i: nat, fd: nat,
                     owed: seq<Byte>)
    requires FilesReadable(image) && Ok(s) && SideOk(x) && Allowed(s, x, call) && Enabled(s, e)
    requires Answers(image, s, x, call, e) && Settled(s, t, i, fd)
    requires Running(s, t, i) && ByProgram(call) ==> NextOfCat(owed, call, fd)
    ensures Settled(Step(s, e), t, i, fd)
  {
    hide FilesReadable, SideOk, Overruns, Answers, Distinct, BootOrder, NextOfCat, Enabled;
    assert ProcessOk(Proc(s, t, i));
    if !ByProgram(call) {
      NobodysEvent(image, s, x, call, e);
    } else if Running(s, t, i) {
      CatsEvent(image, s, x, call, e, fd, owed);
    }
    StaysInnermost(s, e, t);
  }

  lemma {:induction false} CatKeepsOpen(image: seq<Byte>, s: System, x: Side, calls: seq<Call>, es: seq<Event>,
                                        results: seq<Result>, t: nat, i: nat, fd: nat, m: nat, n: nat)
    requires Ran(image, s, x, calls, es, results) && m <= n <= |es|
    requires LikeCat(s, calls, es, results, t, i, fd, m, n) && Settled(After(s, es, m), t, i, fd)
    ensures forall q :: m <= q <= n ==> Settled(After(s, es, q), t, i, fd)
    ensures KeepsOpen(s, es, t, i, fd, m, n)
  {
    hide Ok, SideOk, Legal, Run, Step, Follows, AllPolled, Answers, Gives, Enabled, GivenAt, SideAfter, SideThen,
         SideAt, Allowed, FilesReadable, NextOfCat, Running, Owed;
    if n > m {
      CatKeepsOpen(image, s, x, calls, es, results, t, i, fd, m, n - 1);
      CallAt(image, s, x, calls, es, results, n - 1);
      StaysSettled(image, After(s, es, n - 1), SideAt(image, s, x, calls, es, results, n - 1), calls[n - 1],
                   es[n - 1], t, i, fd, Owed(s, calls, es, results, t, i, m, n - 1));
    }
  }

  /** What cat has read is what it has printed and what it is about to print. */
  lemma {:induction false} PrintedIsTaken(image: seq<Byte>, s: System, x: Side, calls: seq<Call>, es: seq<Event>,
                                          results: seq<Result>, t: nat, i: nat, fd: nat, m: nat, n: nat)
    requires Ran(image, s, x, calls, es, results) && m <= n <= |es|
    requires LikeCat(s, calls, es, results, t, i, fd, m, n) && KeepsOpen(s, es, t, i, fd, m, n)
    ensures Printed(s, calls, es, t, i, m, n) + Owed(s, calls, es, results, t, i, m, n)
            == Taken(s, calls, es, results, t, i, fd, m, n)
  {
    hide Ok, SideOk, Legal, Run, Follows, AllPolled, Answers, Gives, Enabled, GivenAt, SideThen, FilesReadable;
    if n > m {
      PrintedIsTaken(image, s, x, calls, es, results, t, i, fd, m, n - 1);
      assert HasOpen(After(s, es, n - 1), t, i, fd);
    }
  }

  /**
   * cat among other programs, preempted at any place: at every moment what it has printed and is about to print is the
   * file from its beginning on.
   */
  lemma CatPrintsInOrder(image: seq<Byte>, s: System, x: Side, calls: seq<Call>, es: seq<Event>, results: seq<Result>,
                         t: nat, i: nat, fd: nat, m: nat, n: nat)
    requires Ran(image, s, x, calls, es, results) && m <= n <= |es|
    requires LikeCat(s, calls, es, results, t, i, fd, m, n) && Settled(After(s, es, m), t, i, fd)
    requires SlotAt(After(s, es, m), t, i, fd).position == 0
    ensures FilePlace(SlotAt(After(s, es, m), t, i, fd))
    ensures Printed(s, calls, es, t, i, m, n) + Owed(s, calls, es, results, t, i, m, n)
            <= FileOf(image, SlotAt(After(s, es, m), t, i, fd))
  {
    hide SideOk, Legal, Run, Follows, AllPolled, Answers, Gives, Enabled, GivenAt, SideThen, LikeCat, Distinct,
         BootOrder, FileOf, FilesReadable;
    CatKeepsOpen(image, s, x, calls, es, results, t, i, fd, m, n);
    assert ProcessOk(Proc(After(s, es, m), t, i));
    ReadsAreConsecutive(image, s, x, calls, es, results, t, i, fd, m, n);
    PrintedIsTaken(image, s, x, calls, es, results, t, i, fd, m, n);
  }

  /** And when a read gets nothing, at which cat ends, it has printed exactly the file. */
  lemma CatPrintsFile(image: seq<Byte>, s: System, x: Side, calls: seq<Call>, es: seq<Event>, results: seq<Result>,
                      t: nat, i: nat, fd: nat, m: nat, n: nat)
    requires Ran(image, s, x, calls, es, results) && m <= n < |es|
    requires LikeCat(s, calls, es, results, t, i, fd, m, n + 1) && Settled(After(s, es, m), t, i, fd)
    requires SlotAt(After(s, es, m), t, i, fd).position == 0
    requires Running(After(s, es, n), t, i) && results[n] == Delivers(Some([]))
    ensures FilePlace(SlotAt(After(s, es, m), t, i, fd))
    ensures Printed(s, calls, es, t, i, m, n) == FileOf(image, SlotAt(After(s, es, m), t, i, fd))
  {
    hide SideOk, Legal, Run, Follows, AllPolled, Answers, Enabled, GivenAt, SideThen, Distinct, BootOrder, FileOf,
         FilesReadable;
    CatPrintsInOrder(image, s, x, calls, es, results, t, i, fd, m, n);
    CatKeepsOpen(image, s, x, calls, es, results, t, i, fd, m, n + 1);
    CallAt(image, s, x, calls, es, results, n);
    NothingMeansAll(image, s, x, calls, es, results, t, i, fd, m, n);
    PrintedIsTaken(image, s, x, calls, es, results, t, i, fd, m, n);
  }

  // ---- What cat shows ----

  predicate RubsOutNoTab(bytes: seq<Byte>) {
    forall k :: 0 < k < |bytes| && bytes[k] == BACKSPACE ==> bytes[k - 1] != TAB
  }

  lemma RubsOutNoTabInParts(part: seq<Byte>, rest: seq<Byte>)
    requires RubsOutNoTab(part + rest)
    ensures RubsOutNoTab(part)
    ensures part != [] && rest != [] && rest[0] == BACKSPACE ==> part[|part| - 1] != TAB
  {
    var whole := part + rest;
    assert forall k :: 0 <= k < |part| ==> whole[k] == part[k];
    assert rest != [] ==> whole[|part|] == rest[0];
  }

  /** From m to n no key is struck while terminal t is in front. */
  ghost predicate NoKeysAt(image: seq<Byte>, s: System, x: Side, calls: seq<Call>, es: seq<Event>,
                           results: seq<Result>, t: nat, m: nat, n: nat)
    requires Ran(image, s, x, calls, es, results) && n <= |es|
  {
    forall q :: m <= q < n && calls[q].KeyCall? ==>
                  SideAt(image, s, x, calls, es, results, q).typing.desk.front != t
  }

  lemma PictureNext(image: seq<Byte>, s: System, call: Call, x: Side, t: nat, i: nat)
    requires FilesReadable(image) && Ok(s) && SideOk(x) && Allowed(s, x, call) && t < TERMINALS
    requires t < |s.consoles| && |s.consoles[t].stack| == i + 1 && (call.KeyCall? ==> x.typing.desk.front != t)
    ensures V.OnScreen(x.pictures[t])
    ensures SideAfter(image, s, call, x).pictures[t]
            == if Output(s, call, t, i) == [] then x.pictures[t]
               else V.Written(x.pictures[t], NUL, Output(s, call, t, i))
  {
    hide Ok, FilesReadable, Overruns, PastAfter, TypingAfter, PlaceAfter, V.Written, V.OnScreen, InOrder;
  }

  /**
   * The console of cat's terminal, displayed or not, shows at every moment what it has printed, as if written at once:
   * other terminals' programs and keys do not disturb it.
   */
  lemma {:induction false} CatShows(image: seq<Byte>, s: System, x: Side, calls: seq<Call>, es: seq<Event>,
                                    results: seq<Result>, t: nat, i: nat, fd: nat, m: nat, n: nat)
    requires Ran(image, s, x, calls, es, results) && m <= n <= |es| && t < TERMINALS
    requires LikeCat(s, calls, es, results, t, i, fd, m, n) && Settled(After(s, es, m), t, i, fd)
    requires NoKeysAt(image, s, x, calls, es, results, t, m, n) && RubsOutNoTab(Printed(s, calls, es, t, i, m, n))
    ensures V.OnScreen(SideAt(image, s, x, calls, es, results, m).pictures[t])
    ensures SideAt(image, s, x, calls, es, results, n).pictures[t]
            == V.Written(SideAt(image, s, x, calls, es, results, m).pictures[t], NUL,
                              Printed(s, calls, es, t, i, m, n))
  {
    hide Ok, Legal, Run, Step, Follows, AllPolled, Answers, Gives, Enabled, GivenAt, SideAfter, SideThen, SideAt,
         Allowed, FilesReadable, NextOfCat, Running, Owed, Output, InOrder, V.OnScreen, RubsOutNoTab;
    if n > m {
      var before, out := Printed(s, calls, es, t, i, m, n - 1), Output(After(s, es, n - 1), calls[n - 1], t, i);
      RubsOutNoTabInParts(before, out);
      CatShows(image, s, x, calls, es, results, t, i, fd, m, n - 1);
      CatKeepsOpen(image, s, x, calls, es, results, t, i, fd, m, n);
      CallAt(image, s, x, calls, es, results, n - 1);
      assert Settled(After(s, es, n - 1), t, i, fd);
      PictureNext(image, After(s, es, n - 1), calls[n - 1], SideAt(image, s, x, calls, es, results, n - 1), t, i);
      if out == [] {
        assert before + [] == before;
      } else {
        V.WrittenInParts(SideAt(image, s, x, calls, es, results, m).pictures[t], NUL, before, out);
      }
    }
  }

  lemma {:induction false} LinesRubOutNothing(lines: seq<seq<Byte>>)
    requires forall i :: 0 <= i < |lines| ==> ScreenLines.Plain(lines[i])
    ensures BACKSPACE !in G.Unlines(lines)
  {
    if lines != [] {
      LinesRubOutNothing(lines[1..]);
      assert BACKSPACE !in lines[0];
    }
  }

  /**
   * So when cat has read all of a file of lines of printable bytes shorter than a row, its console, blank below the
   * cursor when it began, shows them one to a row, or the last ones if there are too many.
   */
  lemma CatShowsLines(image: seq<Byte>, s: System, x: Side, calls: seq<Call>, es: seq<Event>, results: seq<Result>,
                      t: nat, i: nat, fd: nat, m: nat, n: nat, lines: seq<seq<Byte>>)
    requires Ran(image, s, x, calls, es, results) && m <= n < |es| && t < TERMINALS
    requires LikeCat(s, calls, es, results, t, i, fd, m, n + 1) && Settled(After(s, es, m), t, i, fd)
    requires SlotAt(After(s, es, m), t, i, fd).position == 0
    requires Running(After(s, es, n), t, i) && results[n] == Delivers(Some([]))
    requires NoKeysAt(image, s, x, calls, es, results, t, m, n)
    requires FileOf(image, SlotAt(After(s, es, m), t, i, fd)) == G.Unlines(lines)
    requires forall j :: 0 <= j < |lines| ==> ScreenLines.Plain(lines[j]) && |lines[j]| < 80
    requires var c := SideAt(image, s, x, calls, es, results, m).pictures[t];
             V.OnScreen(c) && c.x == 0 && ScreenLines.BlankFrom(c, c.y)
    ensures ScreenLines.ShowsLines(SideAt(image, s, x, calls, es, results, n).pictures[t], lines)
  {
    hide Ok, Legal, Run, Follows, AllPolled, Answers, Gives, Enabled, GivenAt, SideThen, SideAt, Settled, FileOf,
         NoKeysAt, FilesReadable, Running, NextOfCat, Owed, V.OnScreen, V.Written, ScreenLines.BlankFrom,
         ScreenLines.ShowsLines,
         G.Unlines, ScreenLines.Plain, LikeCat;
    CatPrintsFile(image, s, x, calls, es, results, t, i, fd, m, n);
    LinesRubOutNothing(lines);
    StillLikeCat(s, calls, es, results, t, i, fd, m, n);
    CatShows(image, s, x, calls, es, results, t, i, fd, m, n);
    ScreenLines.LinesAreShown(SideAt(image, s, x, calls, es, results, m).pictures[t], lines);
  }

  lemma StillLikeCat(s: System, calls: seq<Call>, es: seq<Event>, results: seq<Result>, t: nat, i: nat, fd: nat,
                     m: nat, n: nat)
    requires Ok(s) && Legal(s, es) && |calls| == |es| == |results| && m <= n < |es|
    requires LikeCat(s, calls, es, results, t, i, fd, m, n + 1)
    ensures LikeCat(s, calls, es, results, t, i, fd, m, n)
  {
  }
}
