// What programs read over a whole run, whatever other programs, keys and interrupts come between: consecutive stretches
// of their files, and the lines typed at their terminals.
module ReadRuns {
  import opened Bytes
  import opened Descriptors
  import opened ProcessStacks
  import opened Kernel
  import opened FileCalls
  import opened SystemCall
  import opened Runs
  import opened Handovers
  import opened Typewriters
  import opened KernelCalls
  import opened KernelRuns
  import L = LineEditing
  import FS = FileSystem

  // ---- Files ----

  /** The process at place i of terminal t has a file open in slot fd. */
  ghost predicate HasOpen(s: System, t: nat, i: nat, fd: nat) {
    At(s, t, i) && fd < |Proc(s, t, i).fds| && Proc(s, t, i).fds[fd].driver == Some(Regular)
  }

  /** It has it open from event m of the run to event n. */
  ghost predicate KeepsOpen(s: System, es: seq<Event>, t: nat, i: nat, fd: nat, m: nat, n: nat)
    requires Ok(s) && Legal(s, es) && n <= |es|
  {
    forall q :: m <= q <= n ==> HasOpen(After(s, es, q), t, i, fd)
  }

  /** This call is a read by that process from that slot. */
  predicate ReadsFrom(s: System, call: Call, t: nat, i: nat, fd: nat)
    requires At(s, t, i)
  {
    call.ReadCall? && call.fd == fd && s.running == t && i == |s.consoles[t].stack| - 1
  }

  /** All the bytes that its reads among the calls from m to n have delivered, in order. */
  ghost function Taken(s: System, calls: seq<Call>, es: seq<Event>, results: seq<Result>, t: nat, i: nat, fd: nat,
                       m: nat, n: nat): seq<Byte>
    requires Ok(s) && Legal(s, es) && |calls| == |es| == |results| && m <= n <= |es|
    requires KeepsOpen(s, es, t, i, fd, m, n)
  {
    if n == m then []
    else
      assert HasOpen(After(s, es, n - 1), t, i, fd);
      Taken(s, calls, es, results, t, i, fd, m, n - 1)
      + if ReadsFrom(After(s, es, n - 1), calls[n - 1], t, i, fd) && results[n - 1].Delivers? then
          results[n - 1].bytes.GetOr([])
        else []
  }

  ghost function SlotAt(s: System, t: nat, i: nat, fd: nat): Descriptor
    requires HasOpen(s, t, i, fd)
  {
    Proc(s, t, i).fds[fd]
  }

  /** Only a process's own call can change a slot in which it has a file open before and after. */
  lemma StepSlot(s: System, e: Event, t: nat, i: nat, fd: nat)
    requires Ok(s) && Enabled(s, e) && HasOpen(s, t, i, fd) && HasOpen(Step(s, e), t, i, fd)
    ensures FilePlace(SlotAt(s, t, i, fd)) && fd < OPEN_FILES
    ensures if e.Own? && s.running == t && i == |s.consoles[t].stack| - 1 then
              TopTable(s)[fd] == SlotAt(s, t, i, fd) && SlotAt(Step(s, e), t, i, fd) == e.fds[fd]
            else SlotAt(Step(s, e), t, i, fd) == SlotAt(s, t, i, fd)
  {
    hide Distinct;
    assert ProcessOk(Proc(s, t, i));
    if e.Tick? && !Booted(s) && s.consoles[s.shellTid].stack == [] {
      BootPid(s);
    }
  }

  /** What the caller's own calls do to a slot in which it has a file open before and after. */
  lemma OwnSlot(image: seq<Byte>, s: System, x: Side, call: Call, e: Event, fd: nat)
    requires FilesReadable(image) && Ok(s) && SideOk(x) && Allowed(s, x, call) && Answers(image, s, x, call, e)
    requires e.Own? && fd < OPEN_FILES && |e.fds| == OPEN_FILES && Booted(s) && FilePlace(TopTable(s)[fd])
    requires TopTable(s)[fd].driver == Some(Regular) && e.fds[fd].driver == Some(Regular)
    ensures e.fds[fd] == if call.ReadCall? && call.fd == fd then
                           TopTable(s)[fd].(position := TopTable(s)[fd].position
                                                       + |Chunk(image, TopTable(s)[fd], call.count)|)
                         else TopTable(s)[fd]
  {
    hide Ok, FilesReadable, SideOk, Overruns, Chunk, Acted, FS.Lookup, Handed, FS.WellFormed, BeginsWith, FirstFree;
    if call.ReadCall? {
      SlotHasDriver(s, call.fd);
      SlotHasDriver(s, fd);
    }
  }

  /** One call: the slot moves on by what a read from it delivers, and no other call of anybody's touches it. */
  lemma StepReads(image: seq<Byte>, s: System, x: Side, call: Call, e: Event, result: Result, t: nat, i: nat, fd: nat)
    requires FilesReadable(image) && Ok(s) && SideOk(x) && Allowed(s, x, call) && Enabled(s, e)
    requires Answers(image, s, x, call, e) && Gives(image, s, x, call, result)
    requires HasOpen(s, t, i, fd) && HasOpen(Step(s, e), t, i, fd)
    ensures FilePlace(SlotAt(s, t, i, fd))
    ensures var d := SlotAt(s, t, i, fd);
            if ReadsFrom(s, call, t, i, fd) then
              && result == Delivers(Some(Chunk(image, d, call.count)))
              && SlotAt(Step(s, e), t, i, fd) == d.(position := d.position + |Chunk(image, d, call.count)|)
            else SlotAt(Step(s, e), t, i, fd) == d
  {
    hide Ok, FilesReadable, SideOk, Overruns, Chunk, Step, Handed;
    StepSlot(s, e, t, i, fd);
    if s.running == t && i == |s.consoles[t].stack| - 1 && ByProgram(call) {
      SlotHasDriver(s, fd);
      OwnEvent(image, s, x, call, e);
      if e.Own? {
        OwnSlot(image, s, x, call, e, fd);
      }
    }
  }

  /** A read of a file is a step of the caller's own. */
  lemma OwnEvent(image: seq<Byte>, s: System, x: Side, call: Call, e: Event)
    requires FilesReadable(image) && Ok(s) && SideOk(x) && Allowed(s, x, call) && Answers(image, s, x, call, e)
    requires Enabled(s, e)
    ensures e.Own? ==> ByProgram(call) && |e.fds| == OPEN_FILES
    ensures KernelCalls.Reads(s, call, Regular) ==> e.Own?
  {
    hide Ok, FilesReadable, SideOk, Overruns, Chunk, Acted, Loadable, MayLoad, Handed, Opening, Closing;
  }

  /** The bytes at a place of a file and those right behind them. */
  lemma NextStretch(content: seq<Byte>, from: nat, got: nat, count: nat)
    requires from + got <= |content|
    ensures var chunk := FS.Slice(content, from + got, count);
            && from + got + |chunk| <= |content|
            && content[from..from + got] + chunk == content[from..from + got + |chunk|]
            && (chunk == [] && count > 0 ==> from + got == |content|)
  {
    var chunk := FS.Slice(content, from + got, count);
    assert chunk == content[from + got..from + got + |chunk|];
  }

  /**
   * In any run, among any calls of other programs and its own, what a process reads through a slot while it keeps that
   * open on a file is a consecutive stretch of the file, from where it began, and the position is just past it.
   */
  lemma {:induction false} ReadsAreConsecutive(image: seq<Byte>, s: System, x: Side, calls: seq<Call>, es: seq<Event>,
                                               results: seq<Result>, t: nat, i: nat, fd: nat, m: nat, n: nat)
    requires Ran(image, s, x, calls, es, results) && m <= n <= |es| && KeepsOpen(s, es, t, i, fd, m, n)
    requires HasOpen(After(s, es, m), t, i, fd) && FilePlace(SlotAt(After(s, es, m), t, i, fd))
    requires var d := SlotAt(After(s, es, m), t, i, fd); d.position <= |FileOf(image, d)|
    ensures var d, bytes := SlotAt(After(s, es, m), t, i, fd), Taken(s, calls, es, results, t, i, fd, m, n);
            && d.position + |bytes| <= |FileOf(image, d)|
            && bytes == FileOf(image, d)[d.position..d.position + |bytes|]
            && HasOpen(After(s, es, n), t, i, fd)
            && SlotAt(After(s, es, n), t, i, fd) == d.(position := d.position + |bytes|)
  {
    hide Ok, FilesReadable, SideOk, Follows, AllPolled, Gives, Answers, Allowed, Enabled, Step, SideThen, Run, Legal,
         GivenAt, FileOf, Taken, FS.Slice;
    var d := SlotAt(After(s, es, m), t, i, fd);
    if n == m {
      NothingTaken(s, calls, es, results, t, i, fd, m);
    } else {
      ReadsAreConsecutive(image, s, x, calls, es, results, t, i, fd, m, n - 1);
      var got := |Taken(s, calls, es, results, t, i, fd, m, n - 1)|;
      assert HasOpen(After(s, es, n), t, i, fd);
      var chunk, count := TakenNext(image, s, x, calls, es, results, t, i, fd, m, n - 1, d, got);
      NextStretch(FileOf(image, d), d.position, got, count);
    }
  }

  lemma NothingTaken(s: System, calls: seq<Call>, es: seq<Event>, results: seq<Result>, t: nat, i: nat, fd: nat, m: nat)
    requires Ok(s) && Legal(s, es) && |calls| == |es| == |results| && m <= |es| && KeepsOpen(s, es, t, i, fd, m, m)
    ensures Taken(s, calls, es, results, t, i, fd, m, m) == []
  {
  }

  /** One call more: what it adds to the bytes taken, if anything, is what lies next in the file. */
  lemma TakenNext(image: seq<Byte>, s: System, x: Side, calls: seq<Call>, es: seq<Event>, results: seq<Result>,
                  t: nat, i: nat, fd: nat, m: nat, n: nat, d: Descriptor, got: nat)
    returns (chunk: seq<Byte>, count: nat)
    requires Ran(image, s, x, calls, es, results) && m <= n < |es| && KeepsOpen(s, es, t, i, fd, m, n + 1)
    requires HasOpen(After(s, es, n), t, i, fd) && HasOpen(After(s, es, n + 1), t, i, fd) && FilePlace(d)
    requires SlotAt(After(s, es, n), t, i, fd) == d.(position := d.position + got)
    ensures Taken(s, calls, es, results, t, i, fd, m, n + 1) == Taken(s, calls, es, results, t, i, fd, m, n) + chunk
    ensures SlotAt(After(s, es, n + 1), t, i, fd) == d.(position := d.position + got + |chunk|)
    ensures chunk == [] || chunk == FS.Slice(FileOf(image, d), d.position + got, count)
    ensures ReadsFrom(After(s, es, n), calls[n], t, i, fd) ==>
              results[n] == Delivers(Some(chunk)) && count == calls[n].count
              && chunk == FS.Slice(FileOf(image, d), d.position + got, count)
  {
    hide Ok, FilesReadable, SideOk, Follows, AllPolled, Gives, Answers, Allowed, Enabled, Step, SideThen, Run, Legal,
         FileOf, FS.Slice;
    assert GivenAt(image, s, x, calls, es, results, n);
    AfterNext(s, es, n);
    var r, y := After(s, es, n), SideThen(image, s, x, calls[..n], es[..n]);
    StepReads(image, r, y, calls[n], es[n], results[n], t, i, fd);
    if ReadsFrom(r, calls[n], t, i, fd) {
      count := calls[n].count;
      SameFile(image, d, d.position + got, count);
      chunk := Chunk(image, SlotAt(r, t, i, fd), count);
    } else {
      chunk, count := [], 0;
    }
  }

  lemma SameFile(image: seq<Byte>, d: Descriptor, position: nat, count: nat)
    requires FilesReadable(image) && FilePlace(d) && FilePlace(d.(position := position))
    ensures Chunk(image, d.(position := position), count) == FS.Slice(FileOf(image, d), position, count)
  {
  }

  /** Once a read that asked for something has got nothing, all there was to read has been read. */
  lemma NothingMeansAll(image: seq<Byte>, s: System, x: Side, calls: seq<Call>, es: seq<Event>, results: seq<Result>,
                        t: nat, i: nat, fd: nat, m: nat, n: nat)
    requires Ran(image, s, x, calls, es, results) && m <= n < |es| && KeepsOpen(s, es, t, i, fd, m, n + 1)
    requires HasOpen(After(s, es, m), t, i, fd) && FilePlace(SlotAt(After(s, es, m), t, i, fd))
    requires var d := SlotAt(After(s, es, m), t, i, fd); d.position <= |FileOf(image, d)|
    requires HasOpen(After(s, es, n), t, i, fd) && ReadsFrom(After(s, es, n), calls[n], t, i, fd)
    requires calls[n].count > 0 && results[n] == Delivers(Some([]))
    ensures var d := SlotAt(After(s, es, m), t, i, fd);
            Taken(s, calls, es, results, t, i, fd, m, n) == FileOf(image, d)[d.position..]
  {
    hide Ok, FilesReadable, SideOk, Follows, AllPolled, Gives, Answers, Allowed, Enabled, Step, SideThen, Run, Legal;
    var d := SlotAt(After(s, es, m), t, i, fd);
    ReadsAreConsecutive(image, s, x, calls, es, results, t, i, fd, m, n);
    var got := |Taken(s, calls, es, results, t, i, fd, m, n)|;
    assert HasOpen(After(s, es, n + 1), t, i, fd);
    var chunk, count := TakenNext(image, s, x, calls, es, results, t, i, fd, m, n, d, got);
    NextStretch(FileOf(image, d), d.position, got, count);
  }

  // ---- Lines ----

  /** What the first n calls do at the typewriter: keys, and reads that Enter has let through. */
  ghost function Acts(image: seq<Byte>, s: System, x: Side, calls: seq<Call>, es: seq<Event>, results: seq<Result>,
                      n: nat): seq<Act>
    requires Ran(image, s, x, calls, es, results) && n <= |es|
  {
    if n == 0 then []
    else
      assert GivenAt(image, s, x, calls, es, results, n - 1);
      var r, y := Run(s, es[..n - 1]), SideThen(image, s, x, calls[..n - 1], es[..n - 1]);
      Acts(image, s, x, calls, es, results, n - 1) + ActOf(r, y.typing, calls[n - 1])
  }

  ghost function ActOf(s: System, w: Typewriter, call: Call): seq<Act>
    requires Ok(s) && InOrder(w)
  {
    if call.KeyCall? then [Press(call.code)]
    else if KernelCalls.Reads(s, call, Stdin) && w.entered[s.running] then [Fetch(s.running, call.count)]
    else []
  }

  /** The typewriter of a run is that of its acts: nothing else that happens touches what is being typed. */
  lemma {:induction false} TypingIsActs(image: seq<Byte>, s: System, x: Side, calls: seq<Call>, es: seq<Event>,
                                        results: seq<Result>, n: nat)
    requires Ran(image, s, x, calls, es, results) && n < |es|
    ensures GivenAt(image, s, x, calls, es, results, n)
    ensures var acts := Acts(image, s, x, calls, es, results, n);
            CanDo(x.typing, acts)
            && SideThen(image, s, x, calls[..n], es[..n]).typing == ActedOut(x.typing, acts)
  {
    hide Ok, FilesReadable, Follows, AllPolled, Gives, Answers, Enabled, Step, SideThen, Run, Legal, CanDo, ActedOut,
         Acted, SideAfter, Overruns;
    assert GivenAt(image, s, x, calls, es, results, n);
    if n == 0 {
      assert es[..0] == [] && calls[..0] == [];
      NothingTyped(image, s, x);
    } else {
      TypingIsActs(image, s, x, calls, es, results, n - 1);
      var r, y := Run(s, es[..n - 1]), SideThen(image, s, x, calls[..n - 1], es[..n - 1]);
      var acts := Acts(image, s, x, calls, es, results, n - 1);
      OneMoreCall(image, s, x, calls[..n - 1], es[..n - 1], calls[n - 1], es[n - 1]);
      assert calls[..n - 1] + [calls[n - 1]] == calls[..n] && es[..n - 1] + [es[n - 1]] == es[..n];
      TypingIs(image, r, calls[n - 1], y);
      if ActOf(r, y.typing, calls[n - 1]) == [] {
        assert acts + [] == acts;
      } else {
        ActCanBe(r, y.typing, calls[n - 1]);
        OneMoreAct(x.typing, acts, ActOf(r, y.typing, calls[n - 1])[0]);
      }
    }
  }

  lemma NothingTyped(image: seq<Byte>, s: System, x: Side)
    requires FilesReadable(image) && Ok(s) && SideOk(x)
    ensures Legal(s, []) && Follows(image, s, x, [], []) && SideThen(image, s, x, [], []) == x
    ensures CanDo(x.typing, []) && ActedOut(x.typing, []) == x.typing
  {
  }

  lemma ActCanBe(s: System, w: Typewriter, call: Call)
    requires Ok(s) && InOrder(w) && ActOf(s, w, call) != []
    ensures ActOf(s, w, call) == [ActOf(s, w, call)[0]] && CanAct(w, ActOf(s, w, call)[0])
  {
  }

  lemma TypingIs(image: seq<Byte>, s: System, call: Call, x: Side)
    requires FilesReadable(image) && Ok(s) && SideOk(x) && Proper(call) && !Overruns(s, x, call)
    ensures var act := ActOf(s, x.typing, call);
            SideAfter(image, s, call, x).typing
            == if act == [] then x.typing else (assert CanAct(x.typing, act[0]); Acted(x.typing, act[0]))
  {
    hide Overruns;
  }

  /**
   * In any run in which each Enter is read before the next key, whatever else happens, a read that gets a line gets the
   * line that an ideal editor would have at the reader's terminal, cut to the read's size.
   */
  lemma LinesAreIdeal(image: seq<Byte>, s: System, x: Side, calls: seq<Call>, es: seq<Event>, results: seq<Result>,
                      n: nat)
    requires Ran(image, s, x, calls, es, results) && n < |es| && NobodyWaits(x.typing)
    requires Orderly(Acts(image, s, x, calls, es, results, n))
    requires calls[n].ReadCall? && Legal(s, es[..n]) && KernelCalls.Reads(Run(s, es[..n]), calls[n], Stdin)
    requires results[n] != Delivers(None)
    ensures var d := L.Worked(x.typing.desk, Strokes(Acts(image, s, x, calls, es, results, n)));
            && Run(s, es[..n]).running == d.front < |d.lines|
            && results[n] == Delivers(Some(L.Delivered(d.lines[d.front], calls[n].count)))
            && results[n].bytes.value <= d.lines[d.front] + [NEWLINE]
            && |results[n].bytes.value| == if calls[n].count >= 1 then Min(calls[n].count, |d.lines[d.front]| + 1)
                                           else |d.lines[d.front]| + 1
  {
    hide Ok, FilesReadable, Follows, AllPolled, Answers, Enabled, Step, SideThen, Run, Legal, CanDo, ActedOut, Acted,
         SideAfter, Overruns, Handed, L.Delivered, L.Worked, Strokes, Orderly, NobodyWaits;
    TypingIsActs(image, s, x, calls, es, results, n);
    var r, y := Run(s, es[..n]), SideThen(image, s, x, calls[..n], es[..n]);
    LineGot(image, r, y, calls[n], results[n]);
    OrderlyReadIsIdeal(x.typing, Acts(image, s, x, calls, es, results, n), Run(s, es[..n]).running, calls[n].count);
    IdealLineFits(x.typing, Acts(image, s, x, calls, es, results, n), calls[n].count);
  }

  lemma IdealLineFits(w: Typewriter, acts: seq<Act>, count: nat)
    requires NobodyWaits(w)
    ensures var d := L.Worked(w.desk, Strokes(acts));
            && d.front < |d.lines| && L.Delivered(d.lines[d.front], count) <= d.lines[d.front] + [NEWLINE]
            && |L.Delivered(d.lines[d.front], count)| == if count >= 1 then Min(count, |d.lines[d.front]| + 1)
                                                         else |d.lines[d.front]| + 1
  {
    hide L.Worked, Strokes;
    var d := L.Worked(w.desk, Strokes(acts));
    L.DeliversNoMore(d.lines[d.front], count);
  }

  lemma LineGot(image: seq<Byte>, s: System, x: Side, call: Call, result: Result)
    requires FilesReadable(image) && Ok(s) && SideOk(x) && Allowed(s, x, call) && Gives(image, s, x, call, result)
    requires KernelCalls.Reads(s, call, Stdin) && result != Delivers(None)
    ensures x.typing.entered[s.running] && s.running < TERMINALS
    ensures result == Delivers(Some(Handed(x.typing, call.count)))
  {
    hide FilesReadable, Overruns, Handed;
  }
}
