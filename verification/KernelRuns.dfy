// Every run of interrupts, keystrokes and calls is a run of the process machine, so that what holds of runs holds of
// the kernel's tables; and what the calls of a run give is what the programs on it see.
module KernelRuns {
  import opened Bytes
  import opened CStrings
  import opened Descriptors
  import opened ProcessStacks
  import opened KernelTables
  import opened Kernel
  import opened SystemCall
  import opened FileCalls
  import opened Frequencies
  import opened Runs
  import opened Handovers
  import opened Screen
  import opened Terminals
  import opened Typewriters
  import opened KernelCalls
  import Command
  import L = LineEditing
  import K = Keyboard
  import S = Screens
  import FS = FileSystem

  // ---- The run that calls make ----

  const NONE_PAST: seq<bool> := [false, false, false]

  /** The call has proper arguments, comes at a time it can come, and does not write out of bounds. */
  ghost predicate Allowed(s: System, x: Side, call: Call)
    requires Ok(s) && SideOk(x)
  {
    Proper(call) && CanHappen(s, call) && !Overruns(s, x, call)
  }

  /** The run es from s is what these calls do, one step each. */
  ghost predicate Follows(image: seq<Byte>, s: System, x: Side, calls: seq<Call>, es: seq<Event>)
    requires FilesReadable(image) && Ok(s) && Legal(s, es) && SideOk(x)
    decreases |es|
  {
    |calls| == |es| &&
    (es != [] ==>
       && Allowed(s, x, calls[0]) && Answers(image, s, x, calls[0], es[0])
       && (StepOk(s, es[0]); Follows(image, Step(s, es[0]), SideAfter(image, s, calls[0], x), calls[1..], es[1..])))
  }

  /** The devices after the run. */
  ghost function SideThen(image: seq<Byte>, s: System, x: Side, calls: seq<Call>, es: seq<Event>): (r: Side)
    requires FilesReadable(image) && Ok(s) && Legal(s, es) && SideOk(x) && Follows(image, s, x, calls, es)
    ensures SideOk(r)
    decreases |es|
  {
    if es == [] then x
    else (StepOk(s, es[0]); SideThen(image, Step(s, es[0]), SideAfter(image, s, calls[0], x), calls[1..], es[1..]))
  }

  lemma {:induction false} OneMoreCall(image: seq<Byte>, s: System, x: Side, calls: seq<Call>, es: seq<Event>,
                                       call: Call, e: Event)
    requires FilesReadable(image) && Ok(s) && Legal(s, es) && SideOk(x) && Follows(image, s, x, calls, es)
    requires Enabled(Run(s, es), e) && Allowed(Run(s, es), SideThen(image, s, x, calls, es), call)
    requires Answers(image, Run(s, es), SideThen(image, s, x, calls, es), call, e)
    ensures Legal(s, es + [e]) && Follows(image, s, x, calls + [call], es + [e])
    ensures SideThen(image, s, x, calls + [call], es + [e])
            == SideAfter(image, Run(s, es), call, SideThen(image, s, x, calls, es))
    decreases |es|
  {
    hide FilesReadable, Answers, Step, Enabled, Ok, SideAfter, Allowed, SideOk;
    OneMoreStep(s, es, e);
    if es == [] {
      assert (es + [e])[1..] == [] && (calls + [call])[1..] == [];
    } else {
      StepOk(s, es[0]);
      AllowedMeans(s, x, calls[0]);
      OneMoreCall(image, Step(s, es[0]), SideAfter(image, s, calls[0], x), calls[1..], es[1..], call, e);
      assert (es + [e])[1..] == es[1..] + [e] && (calls + [call])[1..] == calls[1..] + [call];
    }
  }

  lemma AllowedMeans(s: System, x: Side, call: Call)
    requires Ok(s) && SideOk(x) && Allowed(s, x, call)
    ensures Proper(call) && CanHappen(s, call) && !Overruns(s, x, call)
  {
  }

  lemma {:induction false} OneMoreStep(s: System, es: seq<Event>, e: Event)
    requires Ok(s) && Legal(s, es) && Enabled(Run(s, es), e)
    ensures Legal(s, es + [e]) && Run(s, es + [e]) == Step(Run(s, es), e)
    decreases |es|
  {
    if es == [] {
      StepOk(s, e);
      assert ([] + [e])[1..] == [];
    } else {
      StepOk(s, es[0]);
      OneMoreStep(Step(s, es[0]), es[1..], e);
      assert (es + [e])[1..] == es[1..] + [e];
    }
  }

  /** A reader's flag is up only if its terminal's counter has been seen at its target. */
  ghost predicate AllPolled(s: System, es: seq<Event>, past: seq<bool>)
    requires Ok(s) && Legal(s, es)
  {
    |past| == TERMINALS &&
    forall t :: 0 <= t < TERMINALS ==> Polled(s, es, t, false) && (past[t] ==> SeenAfter(s, es, t, false))
  }

  lemma {:induction false} OneMorePoll(s: System, es: seq<Event>, e: Event, t: nat, seen: bool)
    requires Ok(s) && Legal(s, es) && Enabled(Run(s, es), e) && Legal(s, es + [e]) && Polled(s, es, t, seen)
    requires Run(s, es).running == t && e.Own? && e.op == ClearCounter ==> SeenAfter(s, es, t, seen)
    ensures Polled(s, es + [e], t, seen)
    ensures SeenAfter(s, es + [e], t, seen) ==
              ((SeenAfter(s, es, t, seen) || Reached(Run(s, es), t)) && !Calls(Run(s, es), e, t))
    decreases |es|
  {
    hide Ok, Enabled, Step, Reached, Calls;
    if es == [] {
      StepOk(s, e);
      assert ([] + [e])[1..] == [];
    } else {
      StepOk(s, es[0]);
      assert (es + [e])[1..] == es[1..] + [e];
      OneMorePoll(Step(s, es[0]), es[1..], e, t, (seen || Reached(s, t)) && !Calls(s, es[0], t));
    }
  }

  /** The reader's turns keep to the order of rtc_read: it clears only after its flag has gone up. */
  lemma TurnsPolled(image: seq<Byte>, s: System, es: seq<Event>, x: Side, call: Call, e: Event)
    requires FilesReadable(image) && Ok(s) && Legal(s, es) && SideOk(x) && AllPolled(s, es, x.past)
    requires Enabled(Run(s, es), e) && Legal(s, es + [e]) && Proper(call) && CanHappen(Run(s, es), call)
    requires Answers(image, Run(s, es), x, call, e)
    ensures AllPolled(s, es + [e], PastAfter(Run(s, es), call, x.past))
  {
    hide FilesReadable, Legal, Run, Polled, SeenAfter, Reached, SideOk;
    var r := Run(s, es);
    var next := PastAfter(r, call, x.past);
    forall t | 0 <= t < TERMINALS
      ensures Polled(s, es + [e], t, false) && (next[t] ==> SeenAfter(s, es + [e], t, false))
    {
      ClearsWhenPast(image, r, x, call, e);
      OneMorePoll(s, es, e, t, false);
    }
  }

  lemma ClearsWhenPast(image: seq<Byte>, s: System, x: Side, call: Call, e: Event)
    requires FilesReadable(image) && Ok(s) && SideOk(x) && Proper(call) && CanHappen(s, call)
    requires Answers(image, s, x, call, e)
    ensures e.Own? && e.op == ClearCounter ==> x.past[s.running]
    ensures !ByProgram(call) ==> !e.Own? && !e.Execute? && !e.Halt?
    ensures PastAfter(s, call, x.past)[s.running] && ByProgram(call) ==> e == Look && Reached(s, s.running)
  {
    hide FilesReadable, Loadable, MayLoad, Rtc.Target, FS.Lookup, Text, OnScreen, Acted;
  }

  // ---- Any run of calls ----

  function Timers(calls: seq<Call>): nat {
    if calls == [] then 0 else Timers(calls[..|calls| - 1]) + if calls[|calls| - 1].Timer? then 1 else 0
  }

  lemma {:induction false} OneMoreTick(es: seq<Event>, e: Event)
    ensures Ticks(es + [e]) == Ticks(es) + if e.Tick? then 1 else 0
  {
    if es == [] {
      assert ([] + [e])[1..] == [];
    } else {
      OneMoreTick(es[1..], e);
      assert (es + [e])[1..] == es[1..] + [e];
    }
  }

  lemma TicksAreTimers(image: seq<Byte>, s: System, x: Side, call: Call, e: Event)
    requires FilesReadable(image) && Ok(s) && SideOk(x) && Proper(call) && CanHappen(s, call)
    requires Answers(image, s, x, call, e)
    ensures e.Tick? <==> call.Timer?
  {
  }

  /** The timer interrupts a call has to wait for: six boot the machine, the first starts a program. */
  function Awaits(call: Call): nat {
    if ByProgram(call) then 6 else if call.KeyCall? then 1 else 0
  }

  ghost predicate Timely(s: System, calls: seq<Call>)
    requires Ok(s)
  {
    forall i :: 0 <= i < |calls| ==> Progress(s) + Timers(calls[..i]) >= Awaits(calls[i])
  }

  /** By then the shells are up. */
  lemma UpInTime(s: System, es: seq<Event>, call: Call)
    requires Ok(s) && Legal(s, es) && Progress(s) + Ticks(es) >= Awaits(call)
    ensures CanHappen(Run(s, es), call)
  {
    RunProgress(s, es);
  }

  /** Call i of a run finds the machine and the devices as the calls before it left them, and gives what it should. */
  ghost predicate GivenAt(image: seq<Byte>, s: System, x: Side, calls: seq<Call>, es: seq<Event>, results: seq<Result>,
                          i: nat)
    requires FilesReadable(image) && Ok(s) && SideOk(x) && i < |calls| == |es| == |results|
  {
    && Legal(s, es[..i]) && Follows(image, s, x, calls[..i], es[..i]) && Ticks(es[..i]) == Timers(calls[..i])
    && var r, y := Run(s, es[..i]), SideThen(image, s, x, calls[..i], es[..i]);
    && Allowed(r, y, calls[i]) && Enabled(r, es[i])
    && Answers(image, r, y, calls[i], es[i]) && Gives(image, r, y, calls[i], results[i])
  }

  /**
   * What a run of calls does, in terms of the machine: one legal step a call, clock reads in rtc_read's order, and
   * every call gives what the state it finds says.
   */
  ghost predicate Ran(image: seq<Byte>, s: System, x: Side, calls: seq<Call>, es: seq<Event>, results: seq<Result>) {
    && FilesReadable(image) && Ok(s) && SideOk(x) && Legal(s, es) && |calls| == |es| == |results|
    && Follows(image, s, x, calls, es) && Ticks(es) == Timers(calls)
    && AllPolled(s, es, SideThen(image, s, x, calls, es).past)
    && forall i :: 0 <= i < |calls| ==> GivenAt(image, s, x, calls, es, results, i)
  }

  lemma RanOneMore(image: seq<Byte>, s: System, x: Side, calls: seq<Call>, es: seq<Event>, results: seq<Result>,
                   call: Call, e: Event, result: Result)
    requires Ran(image, s, x, calls, es, results)
    requires var r, y := Run(s, es), SideThen(image, s, x, calls, es);
             && Allowed(r, y, call) && Enabled(r, e) && Answers(image, r, y, call, e)
                && Gives(image, r, y, call, result)
    ensures Ran(image, s, x, calls + [call], es + [e], results + [result])
    ensures Run(s, es + [e]) == Step(Run(s, es), e)
    ensures SideThen(image, s, x, calls + [call], es + [e])
            == SideAfter(image, Run(s, es), call, SideThen(image, s, x, calls, es))
  {
    hide Ok, FilesReadable, SideOk, Legal, Run, Enabled, Step, Ticks, Answers, Gives, Follows, SideThen, SideAfter,
         CanHappen, AllPolled, GivenAt, Overruns, PastAfter;
    var y := SideThen(image, s, x, calls, es);
    OneMoreStep(s, es, e);
    OneMoreCall(image, s, x, calls, es, call, e);
    OneMoreTick(es, e);
    TicksAreTimers(image, Run(s, es), y, call, e);
    TurnsPolled(image, s, es, y, call, e);
    PastIs(image, Run(s, es), call, y);
    assert (calls + [call])[..|calls|] == calls;
    GivenOneMore(image, s, x, calls, es, results, call, e, result);
  }

  lemma PastIs(image: seq<Byte>, s: System, call: Call, x: Side)
    requires FilesReadable(image) && Ok(s) && SideOk(x) && Proper(call) && !Overruns(s, x, call)
    ensures SideAfter(image, s, call, x).past == PastAfter(s, call, x.past)
  {
  }

  lemma GivenOneMore(image: seq<Byte>, s: System, x: Side, calls: seq<Call>, es: seq<Event>, results: seq<Result>,
                     call: Call, e: Event, result: Result)
    requires Ran(image, s, x, calls, es, results)
    requires var r, y := Run(s, es), SideThen(image, s, x, calls, es);
             && Allowed(r, y, call) && Enabled(r, e) && Answers(image, r, y, call, e)
                && Gives(image, r, y, call, result)
    ensures forall i :: 0 <= i <= |calls| ==>
              GivenAt(image, s, x, calls + [call], es + [e], results + [result], i)
  {
    hide Ok, FilesReadable, SideOk, Legal, Run, Enabled, Ticks, Answers, Gives, Follows, SideThen, Allowed, AllPolled;
    forall i | 0 <= i <= |calls|
      ensures GivenAt(image, s, x, calls + [call], es + [e], results + [result], i)
    {
      assert (calls + [call])[..i] == calls[..i] && (es + [e])[..i] == es[..i];
      if i == |calls| {
        assert calls[..i] == calls && es[..i] == es;
      } else {
        assert GivenAt(image, s, x, calls, es, results, i);
      }
    }
  }

  /** Would the call write out of bounds? */
  method WouldOverrun(k: Kernel, b: K.Keyboard, call: Call, ghost x: Side) returns (r: bool)
    requires Devices(k, b) && Ok(k.sys) && CanHappen(k.sys, call) && SideOk(x) && Shows(k, b, x)
    ensures r <==> Overruns(k.sys, x, call)
  {
    hide Represents, Ok, Echoed, EchoGiven, OnScreen, DriverOn;
    var line := GoesToKeyboard(k, call);
    IsOk(k);
    if line {
      RunningIsActive(k);
      r := b.enterFlag[k.activeTid] && b.savedBufferPosition > L.LINE;
    } else if call.KeyCall? {
      ghost var front := x.pictures[x.typing.desk.front];
      EchoLeavesScreen(front, EchoGiven(x.typing, call.code));
      RubsOutTab(x.typing, call.code);
      r := call.code == 14 && b.bufferPosition > 0 && b.keyboardBuffer[b.bufferPosition - 1] == TAB
           && 0 < k.screens.screenX < 4 && k.screens.screenY == 0;
    } else {
      r := false;
    }
  }

  lemma RunningIsActive(k: Kernel)
    requires k.Valid()
    ensures k.activeTid == k.sys.running
  {
  }

  /** Only backspace on a line that ends in a tab rubs out a tab. */
  lemma RubsOutTab(w: Typewriter, code: Byte)
    requires InOrder(w)
    ensures var line := w.desk.lines[w.desk.front];
            EchoGiven(w, code) == L.Prints(TAB, BACKSPACE) <==> code == 14 && line != [] && line[|line| - 1] == TAB
  {
    hide L.Letter;
    if code < L.KEYS {
      L.OnlyEnterTypesNewline(false, false, code as int);
    }
  }

  /**
   * Whatever happens to the kernel, in any order, its tables go on representing the machine: the run has one legal step
   * for each call, that step is the call's own, and what the call gives follows from the state it finds. The consoles
   * and the lines being typed change with each call as SideAfter says. It goes on until a call would write out of
   * bounds.
   */
  method RunCalls(k: Kernel, b: K.Keyboard, calls: seq<Call>, ghost x: Side)
    returns (n: nat, ghost es: seq<Event>, results: seq<Result>)
    requires FilesReadable(k.image) && Sound(k.image) && Devices(k, b) && Shows(k, b, x) && x.past == NONE_PAST
    requires Timely(k.sys, calls) && forall i :: 0 <= i < |calls| ==> Proper(calls[i])
    modifies k.Tables(), k.screens, k.screens.Memory(), b, b.Memory()
    ensures n <= |calls| && Devices(k, b) && Ran(k.image, old(k.sys), x, calls[..n], es, results)
    ensures k.sys == Run(old(k.sys), es) && Shows(k, b, SideThen(k.image, old(k.sys), x, calls[..n], es))
    ensures n < |calls| ==> Overruns(k.sys, SideThen(k.image, old(k.sys), x, calls[..n], es), calls[n])
  {
    hide AllRecorded, LiveRecorded, TerminalsRecorded, Current, Ok, Sound, FilesReadable, Legal, Run, Enabled, Step,
         Booted, Ticks, Progress, Answers, Gives, Follows, SideThen, SideAfter, PastAfter, AllPolled, CanHappen,
         OnScreen, Proper, GivenAt, Overruns, Shows;
    ghost var s, y := k.sys, x;
    var past := NONE_PAST;
    n, es, results := 0, [], [];
    StartsLegal(k, b, x);
    while n < |calls|
      invariant n <= |calls| && Devices(k, b) && Ran(k.image, s, x, calls[..n], es, results) && k.sys == Run(s, es)
      invariant y == SideThen(k.image, s, x, calls[..n], es) && SideOk(y) && Shows(k, b, y) && y.past == past
    {
      assert calls[..n + 1] == calls[..n] + [calls[n]];
      IsOk(k);
      UpInTime(s, es, calls[n]);
      var stop := WouldOverrun(k, b, calls[n], y);
      if stop {
        return;
      }
      ghost var e;
      var result;
      e, past, result := Apply(k, b, calls[n], past, y);
      RanOneMore(k.image, s, x, calls[..n], es, results, calls[n], e, result);
      PastIs(k.image, Run(s, es), calls[n], y);
      y := SideAfter(k.image, Run(s, es), calls[n], y);
      n, es, results := n + 1, es + [e], results + [result];
    }
    assert calls[..|calls|] == calls;
  }

  lemma StartsLegal(k: Kernel, b: K.Keyboard, x: Side)
    requires FilesReadable(k.image) && Devices(k, b) && Shows(k, b, x) && x.past == NONE_PAST
    ensures Ok(k.sys) && SideOk(x) && Ran(k.image, k.sys, x, [], [], []) && Run(k.sys, []) == k.sys
    ensures SideThen(k.image, k.sys, x, [], []) == x
  {
    hide AllRecorded, LiveRecorded, TerminalsRecorded, Current, ProcessOk, Distinct, BootOrder, OnScreen;
  }

  /** From power on: the machine is up exactly when six timer interrupts have come, whatever else happened. */
  method FromPowerOn(image: seq<Byte>, screens: S.Screens, b: K.Keyboard, calls: seq<Call>)
    returns (k: Kernel, n: nat, ghost x: Side, ghost es: seq<Event>, results: seq<Result>)
    requires FilesReadable(image) && Sound(image)
    requires screens.Valid() && screens.curDisplayTid == 0 && b.Valid()
    requires screens.Memory() !! b.Memory() && screens !in b.Memory() && b !in screens.Memory()
    requires Timely(PowerOn(), calls) && forall i :: 0 <= i < |calls| ==> Proper(calls[i])
    modifies screens, screens.Memory(), b, b.Memory()
    ensures Devices(k, b) && fresh(k.Tables()) && k.image == image && k.screens == screens
    ensures n <= |calls| && Ran(image, PowerOn(), x, calls[..n], es, results) && k.sys == Run(PowerOn(), es)
    ensures Shows(k, b, SideThen(image, PowerOn(), x, calls[..n], es))
    ensures n < |calls| ==> Overruns(k.sys, SideThen(image, PowerOn(), x, calls[..n], es), calls[n])
    ensures x.past == NONE_PAST && x.place == 0
    ensures forall t :: 0 <= t < TERMINALS ==> x.pictures[t] == old(screens.Console(t))
    ensures Booted(k.sys) <==> Timers(calls[..n]) >= 6
  {
    hide Represents, Sound, Answers, Gives, Progress, FilesReadable, Follows, AllPolled, Proper, OnScreen, GivenAt,
         Overruns;
    k := new Kernel(image, screens);
    x := Side(NONE_PAST, TypewriterOf(k, b), [screens.Console(0), screens.Console(1), screens.Console(2)],
              k.dirReadnum);
    n, es, results := RunCalls(k, b, calls, x);
    BootTakesSixTicks(es);
  }

  // ---- What comes of the calls of a run ----

  /**
   * From any moment of a run of calls to any later one, r reads at frequency f, wherever preempted, take at least
   * r * 1024 / f clock interrupts.
   */
  lemma ClockKeepsTime(image: seq<Byte>, s: System, x: Side, calls: seq<Call>, es: seq<Event>, results: seq<Result>,
                       t: nat, i: nat, f: int, m: nat, l: nat)
    requires Ran(image, s, x, calls, es, results) && t < TERMINALS && m <= l <= |es|
    requires StaysOpen(Handovers.After(s, es, m), Stretch(s, es, m, l), t, i)
    requires FreqToRate(f) != -1 && RateStays(Handovers.After(s, es, m), Stretch(s, es, m, l), t, i, TicksPerRead(f))
    ensures f * TicksPerRead(f) == 1024
    ensures Runs.Reads(Handovers.After(s, es, m), Stretch(s, es, m, l), t, i) * TicksPerRead(f)
            <= Proc(Handovers.After(s, es, m), t, i).rtcCounter + Interrupts(es[m..l])
  {
    hide Ok, FilesReadable, Follows, GivenAt;
    StretchTakesTime(s, es, t, i, f, m, l);
  }

  /**
   * From power on, every timer interrupt of the booted machine loads the context saved by the last timer interrupt that
   * preempted the terminal whose turn it is, be that during the boot, when the same processes were on its stack.
   */
  lemma TimerLoadsLastSaved(image: seq<Byte>, x: Side, calls: seq<Call>, es: seq<Event>, results: seq<Result>, i: nat)
    requires Ran(image, PowerOn(), x, calls, es, results)
    requires i < |calls| && calls[i].Timer? && Timers(calls[..i]) >= 6
    ensures Legal(PowerOn(), es[..i])
    ensures var r := Run(PowerOn(), es[..i]);
            var j := LastParking(PowerOn(), es[..i], Next(r));
            && j.Some? && calls[j.value].Timer? && results[i] == Loads(Some(calls[j.value].preempted))
            && Legal(PowerOn(), es[..j.value])
            && Untouched(Run(PowerOn(), es[..j.value]).consoles[Next(r)].stack, r.consoles[Next(r)].stack)
  {
    hide Ok, FilesReadable, Follows, SideOk, SideThen, Run, Enabled, Allowed, Booted, AllPolled, Answers, LastParking,
         Untouched, Legal;
    var before := es[..i];
    assert GivenAt(image, PowerOn(), x, calls, es, results, i);
    BootTakesSixTicks(before);
    NextTickLoadsLastSaved(before);
    var j := LastParking(PowerOn(), before, Next(Run(PowerOn(), before))).value;
    assert before[..j] == es[..j] && before[j] == es[j];
    assert GivenAt(image, PowerOn(), x, calls, es, results, j);
    ExecutesAre(image, Run(PowerOn(), es[..j]), SideThen(image, PowerOn(), x, calls[..j], es[..j]), calls[j], es[j]);
  }

  /**
   * And every halt that ends a program other than a terminal's shell returns, with its exit code, to the context that
   * the execute which started that very program saved, on the stack of processes that execute found.
   */
  lemma HaltReturnsToExecute(image: seq<Byte>, x: Side, calls: seq<Call>, es: seq<Event>, results: seq<Result>, i: nat)
    requires Ran(image, PowerOn(), x, calls, es, results) && i < |calls| && calls[i].HaltCall?
    requires Legal(PowerOn(), es[..i])
    requires var r := Run(PowerOn(), es[..i]); r.running < |r.consoles| && |r.consoles[r.running].stack| > 1
    ensures var r := Run(PowerOn(), es[..i]);
            var t := r.running;
            var j := LastStart(PowerOn(), es[..i], t, |r.consoles[t].stack| - 1);
            && j.Some? && calls[j.value].ExecuteCall?
            && results[i] == Resumes(ReturnTo(calls[j.value].caller, calls[i].exitCode as int))
            && Legal(PowerOn(), es[..j.value])
            && Untouched(Run(PowerOn(), es[..j.value]).consoles[t].stack,
                         HaltStep(r, calls[i].restart).consoles[t].stack)
  {
    hide Ok, FilesReadable, Follows, SideOk, SideThen, Run, Enabled, AllPolled, Answers, Gives, HaltStep, Untouched,
         LastStart, Legal, Allowed;
    var before := es[..i];
    assert GivenAt(image, PowerOn(), x, calls, es, results, i);
    var r := Run(PowerOn(), before);
    HaltGives(image, r, SideThen(image, PowerOn(), x, calls[..i], before), calls[i], results[i]);
    HaltReturnsToItsExecute(before, calls[i].restart);
    var j := LastStart(PowerOn(), before, r.running, |r.consoles[r.running].stack| - 1).value;
    assert before[..j] == es[..j] && before[j] == es[j];
    assert GivenAt(image, PowerOn(), x, calls, es, results, j);
    ExecutesAre(image, Run(PowerOn(), es[..j]), SideThen(image, PowerOn(), x, calls[..j], es[..j]), calls[j], es[j]);
  }

  lemma HaltGives(image: seq<Byte>, s: System, x: Side, call: Call, result: Result)
    requires FilesReadable(image) && Ok(s) && SideOk(x) && Allowed(s, x, call) && Gives(image, s, x, call, result)
    requires call.HaltCall? && s.running < |s.consoles| && |s.consoles[s.running].stack| > 1
    ensures result == Resumes(ReturnTo(Top(s).returnTo, call.exitCode as int)) && Booted(s)
  {
    hide Ok, FilesReadable, SideOk, Overruns;
  }

  lemma ExecutesAre(image: seq<Byte>, s: System, x: Side, call: Call, e: Event)
    requires FilesReadable(image) && Ok(s) && SideOk(x) && Allowed(s, x, call) && Answers(image, s, x, call, e)
    ensures e.Execute? ==> call.ExecuteCall? && e.caller == call.caller
    ensures e.Tick? ==> call.Timer? && e.preempted == call.preempted
  {
    hide Ok, FilesReadable, SideOk, Overruns, Loadable, MayLoad;
  }

  // ---- The argument, from execute to getargs ----

  /**
   * After a command has been executed, and as long as its program has not ended, the process started for it keeps the
   * command's second word as its argument, whatever it and all others do; and that is what getargs reads for it.
   */
  lemma ArgumentIsKept(s: System, caller: Context, command: seq<Byte>, es: seq<Event>)
    requires Ok(s) && Enabled(s, Execute(caller, Some(ProgramArgs(command)))) && FreePid(s, 0) != -1
    requires var started := ExecuteStep(s, caller, Some(ProgramArgs(command)));
             && Ok(started) && Legal(started, es) && StaysAbove(started, es, s.running, |s.consoles[s.running].stack|)
    ensures var r := Run(ExecuteStep(s, caller, Some(ProgramArgs(command))), es);
            var t, d := s.running, |s.consoles[s.running].stack|;
            && At(r, t, d) && Proc(r, t, d).pid == FreePid(s, 0)
            && NUL in Proc(r, t, d).args && Text(Proc(r, t, d).args) == Cut(Command.SecondWord(command), 127)
  {
    var started := ExecuteStep(s, caller, Some(ProgramArgs(command)));
    ArgumentArrives(s, caller, command);
    BaseIsKept(started, es, s.running, |s.consoles[s.running].stack|);
  }
}
