// Whole runs of the process machine: boot, round robin, matching of halt to execute, and the RTC ledger.
module Runs {
  import opened Bytes
  import opened Descriptors
  import opened ProcessStacks
  import opened Frequencies

  ghost predicate Legal(s: System, es: seq<Event>)
    requires Ok(s)
    decreases |es|
  {
    es == [] || (Enabled(s, es[0]) && (StepOk(s, es[0]); Legal(Step(s, es[0]), es[1..])))
  }

  ghost function Run(s: System, es: seq<Event>): (r: System)
    requires Ok(s) && Legal(s, es)
    ensures Ok(r)
    decreases |es|
  {
    if es == [] then s else (StepOk(s, es[0]); Run(Step(s, es[0]), es[1..]))
  }

  function Ticks(es: seq<Event>): nat {
    if es == [] then 0 else (if es[0].Tick? then 1 else 0) + Ticks(es[1..])
  }

  function Interrupts(es: seq<Event>): nat {
    if es == [] then 0 else (if es[0].Interrupt? then 1 else 0) + Interrupts(es[1..])
  }

  // ---- Boot ----

  /** Two ticks per terminal: one starts its shell, one moves on to the next terminal. */
  ghost function Progress(s: System): nat
    requires Ok(s)
  {
    if Booted(s) then 6 else 2 * s.shellTid + if s.consoles[s.shellTid].stack == [] then 0 else 1
  }

  lemma StepProgress(s: System, e: Event)
    requires Ok(s) && Enabled(s, e)
    ensures Ok(Step(s, e)) && Progress(Step(s, e)) == if e.Tick? then Min(6, Progress(s) + 1) else Progress(s)
  {
    StepOk(s, e);
    if e.Tick? && !Booted(s) && s.consoles[s.shellTid].stack == [] {
      BootPid(s);
    }
  }

  lemma {:induction false} RunProgress(s: System, es: seq<Event>)
    requires Ok(s) && Legal(s, es)
    ensures Progress(Run(s, es)) == Min(6, Progress(s) + Ticks(es))
    decreases |es|
  {
    if es != [] {
      StepProgress(s, es[0]);
      RunProgress(Step(s, es[0]), es[1..]);
    }
  }

  /** The three shells are up after exactly six ticks, whatever interrupts and display switches come between. */
  lemma BootTakesSixTicks(es: seq<Event>)
    requires Legal(PowerOn(), es)
    ensures Booted(Run(PowerOn(), es)) <==> Ticks(es) >= 6
  {
    RunProgress(PowerOn(), es);
    assert forall s | Ok(s) :: Progress(s) == 6 <==> Booted(s);
  }

  /** The sixth tick leaves every terminal running one process, its shell, whose pid is the terminal's number. */
  lemma BootedShells(es: seq<Event>, preempted: Context, launch: Context)
    requires Legal(PowerOn(), es) && Ticks(es) == 5
    ensures var s := TickStep(Run(PowerOn(), es), preempted, launch);
            Booted(s) && s.running == 2 && forall t :: 0 <= t < TERMINALS ==> JustShell(s, t)
  {
    RunProgress(PowerOn(), es);
    SixthTick(Run(PowerOn(), es), preempted, launch);
  }

  ghost predicate JustShell(s: System, t: nat) {
    t < |s.consoles| && |s.consoles[t].stack| == 1 && s.consoles[t].stack[0].pid == t
  }

  lemma SixthTick(s: System, preempted: Context, launch: Context)
    requires Ok(s) && Progress(s) == 5
    ensures var r := TickStep(s, preempted, launch);
            Booted(r) && r.running == 2 && forall t :: 0 <= t < TERMINALS ==> JustShell(r, t)
  {
    var r := TickStep(s, preempted, launch);
    forall t | 0 <= t < TERMINALS ensures JustShell(r, t) {
      assert At(s, t, 0);
    }
  }

  // ---- Round robin ----

  lemma BootedStaysBooted(s: System, e: Event)
    requires Ok(s) && Enabled(s, e) && Booted(s)
    ensures Ok(Step(s, e)) && Booted(Step(s, e))
    ensures Step(s, e).running == if e.Tick? then Next(s) else s.running
  {
    StepOk(s, e);
  }

  /** Whatever programs do meanwhile, k ticks move the running terminal k places on. */
  lemma {:induction false} RunningRotates(s: System, es: seq<Event>)
    requires Ok(s) && Booted(s) && Legal(s, es)
    ensures Booted(Run(s, es)) && Run(s, es).running == (s.running + Ticks(es)) % 3
    decreases |es|
  {
    hide Step;
    if es != [] {
      BootedStaysBooted(s, es[0]);
      RunningRotates(Step(s, es[0]), es[1..]);
    }
  }

  /** The same processes in the same order with the same records, but for the RTC interrupts counted since. */
  ghost predicate Untouched(a: seq<Process>, b: seq<Process>) {
    |a| == |b| && forall i :: 0 <= i < |a| ==> b[i] == a[i].(rtcCounter := b[i].rtcCounter)
  }

  /** Ticks from now until terminal u runs next. */
  function Distance(s: System, u: nat): nat {
    (u + 3 - s.running % 3) % 3
  }

  lemma StepLeavesOthersAlone(s: System, e: Event, u: nat)
    requires Ok(s) && Booted(s) && Enabled(s, e) && u < TERMINALS && u != s.running
    requires e.Tick? ==> u != Next(s)
    ensures Step(s, e).consoles[u].parked == s.consoles[u].parked
    ensures Untouched(s.consoles[u].stack, Step(s, e).consoles[u].stack)
  {
  }

  lemma {:induction false} WaitingIsUndisturbed(s: System, es: seq<Event>, u: nat)
    requires Ok(s) && Booted(s) && Legal(s, es) && u < TERMINALS && Ticks(es) < Distance(s, u)
    ensures Run(s, es).consoles[u].parked == s.consoles[u].parked
    ensures Untouched(s.consoles[u].stack, Run(s, es).consoles[u].stack)
    decreases |es|
  {
    hide ProcessOk, Distinct, BootOrder, Step;
    if es != [] {
      StepLeavesOthersAlone(s, es[0], u);
      BootedStaysBooted(s, es[0]);
      WaitingIsUndisturbed(Step(s, es[0]), es[1..], u);
    }
  }

  /**
   * Preempt a terminal; two ticks later its turn comes again. Whatever every program does in between, the
   * third tick loads the context saved by the first, into the same innermost process on the same stack.
   */
  lemma ThirdTickResumes(s: System, preempted: Context, launch: Context, es: seq<Event>)
    requires Ok(s) && Booted(s) && Ok(TickStep(s, preempted, launch))
    requires Legal(TickStep(s, preempted, launch), es) && Ticks(es) == 1
    ensures var r := Run(TickStep(s, preempted, launch), es);
            && Next(r) == s.running
            && r.consoles[Next(r)].parked == Some(preempted)
            && Untouched(s.consoles[s.running].stack, r.consoles[Next(r)].stack)
  {
    var first := TickStep(s, preempted, launch);
    AfterTick(s, preempted, launch);
    RunningRotates(first, es);
    WaitingIsUndisturbed(first, es, s.running);
  }

  lemma AfterTick(s: System, preempted: Context, launch: Context)
    requires Ok(s) && Booted(s)
    ensures var r := TickStep(s, preempted, launch);
            && Booted(r) && r.running == Next(s) && Distance(r, s.running) == 2
            && r.consoles[s.running] == Console(s.consoles[s.running].stack, Some(preempted))
            && Next(r.(running := (r.running + 1) % 3)) == s.running
  {
  }

  // ---- Execute and halt match like brackets ----

  /** Terminal t always has more than d processes during the run. */
  ghost predicate StaysAbove(s: System, es: seq<Event>, t: nat, d: nat)
    requires Ok(s) && Legal(s, es) && t < TERMINALS
    decreases |es|
  {
    |s.consoles[t].stack| > d && (es != [] ==> (StepOk(s, es[0]); StaysAbove(Step(s, es[0]), es[1..], t, d)))
  }

  /** The lower part of a stack is as it was, and the process just above it is still that one. */
  ghost predicate BaseKept(a: seq<Process>, b: seq<Process>, d: nat)
    requires d < |a| && d < |b|
  {
    Untouched(a[..d], b[..d]) && b[d].pid == a[d].pid && b[d].returnTo == a[d].returnTo && b[d].args == a[d].args
  }

  lemma StepKeepsBase(s: System, e: Event, t: nat, d: nat)
    requires Ok(s) && Booted(s) && Enabled(s, e) && t < TERMINALS && 0 < d < |s.consoles[t].stack|
    requires |Step(s, e).consoles[t].stack| > d
    ensures BaseKept(s.consoles[t].stack, Step(s, e).consoles[t].stack, d)
  {
  }

  lemma {:induction false} BaseIsKept(s: System, es: seq<Event>, t: nat, d: nat)
    requires Ok(s) && Booted(s) && Legal(s, es) && t < TERMINALS && d > 0 && StaysAbove(s, es, t, d)
    ensures |Run(s, es).consoles[t].stack| > d && BaseKept(s.consoles[t].stack, Run(s, es).consoles[t].stack, d)
    decreases |es|
  {
    if es != [] {
      BootedStaysBooted(s, es[0]);
      assert StaysAbove(Step(s, es[0]), es[1..], t, d);
      BaseIsKept(Step(s, es[0]), es[1..], t, d);
      StepKeepsBase(s, es[0], t, d);
    }
  }

  /**
   * The halt that brings a terminal back down to the depth from which a program was executed hands control to the
   * context saved by that very execute, uncovers the caller's stack as it was, and frees the program's pid.
   */
  lemma HaltMatchesExecute(s: System, caller: Context, args: seq<Byte>, es: seq<Event>, restart: Context)
    requires Ok(s) && Enabled(s, Execute(caller, Some(args))) && FreePid(s, 0) != -1
    requires Ok(ExecuteStep(s, caller, Some(args))) && Legal(ExecuteStep(s, caller, Some(args)), es)
    requires var t, d := s.running, |s.consoles[s.running].stack|;
             var r := Run(ExecuteStep(s, caller, Some(args)), es);
             && StaysAbove(ExecuteStep(s, caller, Some(args)), es, t, d)
             && r.running == t && |r.consoles[t].stack| == d + 1
    ensures var r := Run(ExecuteStep(s, caller, Some(args)), es);
            && Top(r).returnTo == caller && Top(r).pid == FreePid(s, 0)
            && Untouched(s.consoles[s.running].stack, HaltStep(r, restart).consoles[s.running].stack)
            && !Live(HaltStep(r, restart), FreePid(s, 0))
  {
    var started := ExecuteStep(s, caller, Some(args));
    var t, d := s.running, |s.consoles[s.running].stack|;
    BaseIsKept(started, es, t, d);
    var r := Run(started, es);
    var halted := HaltStep(r, restart);
    assert started.consoles[t].stack[..d] == s.consoles[t].stack;
    forall u, i | At(halted, u, i) ensures Proc(halted, u, i).pid != Top(r).pid {
      assert At(r, u, i) && At(r, t, d) && Proc(halted, u, i) == Proc(r, u, i);
    }
  }

  // ---- The RTC ledger ----

  /** The process at place i of terminal t has its clock open at every moment of the run. */
  ghost predicate StaysOpen(s: System, es: seq<Event>, t: nat, i: nat)
    requires Ok(s) && Legal(s, es)
    decreases |es|
  {
    && At(s, t, i) && Proc(s, t, i).rtcFreq != 0
    && (es != [] ==> (StepOk(s, es[0]); StaysOpen(Step(s, es[0]), es[1..], t, i)))
  }

  /** This event is the moment a read by the process at place i of terminal t clears the counter. */
  predicate Clears(s: System, e: Event, t: nat, i: nat)
    requires At(s, t, i)
  {
    s.running == t && i == |s.consoles[t].stack| - 1 && e.Own? && e.op == ClearCounter
  }

  /** The sum of the counter values thrown away by that process's reads. */
  ghost function Cleared(s: System, es: seq<Event>, t: nat, i: nat): int
    requires Ok(s) && Legal(s, es) && StaysOpen(s, es, t, i)
    decreases |es|
  {
    if es == [] then 0
    else
      StepOk(s, es[0]);
      (if Clears(s, es[0], t, i) then Proc(s, t, i).rtcCounter else 0) + Cleared(Step(s, es[0]), es[1..], t, i)
  }

  lemma StepConserves(s: System, e: Event, t: nat, i: nat)
    requires Ok(s) && Enabled(s, e) && At(s, t, i) && Proc(s, t, i).rtcFreq != 0
    requires At(Step(s, e), t, i) && Proc(Step(s, e), t, i).rtcFreq != 0
    ensures Proc(Step(s, e), t, i).rtcCounter + (if Clears(s, e, t, i) then Proc(s, t, i).rtcCounter else 0)
            == Proc(s, t, i).rtcCounter + if e.Interrupt? then 1 else 0
  {
  }

  /** No interrupt is lost or counted twice: those cleared by reads and those still counted are all there were. */
  lemma {:induction false} InterruptsAreConserved(s: System, es: seq<Event>, t: nat, i: nat)
    requires Ok(s) && Legal(s, es) && StaysOpen(s, es, t, i)
    ensures At(Run(s, es), t, i)
    ensures Proc(Run(s, es), t, i).rtcCounter + Cleared(s, es, t, i) == Proc(s, t, i).rtcCounter + Interrupts(es)
    decreases |es|
  {
    if es != [] {
      StepOk(s, es[0]);
      InterruptsAreConserved(Step(s, es[0]), es[1..], t, i);
      StepConserves(s, es[0], t, i);
    }
  }

  /** The innermost process of terminal t has counted as many interrupts as it waits for. */
  ghost predicate Reached(s: System, t: nat) {
    && t < |s.consoles| && s.consoles[t].stack != []
    && var p := s.consoles[t].stack[|s.consoles[t].stack| - 1];
       p.rtcCounter >= p.rtcFreq
  }

  /** A program of terminal t makes a call. */
  predicate Calls(s: System, e: Event, t: nat) {
    s.running == t && (e.Execute? || e.Halt? || e.Own?)
  }

  /**
   * What rtc_read does: a counter of terminal t is cleared only if at this or some earlier moment it had reached its
   * target, with no other call by that terminal since then. The flag tells whether there has been such a moment.
   */
  ghost predicate Polled(s: System, es: seq<Event>, t: nat, seen: bool)
    requires Ok(s) && Legal(s, es)
    decreases |es|
  {
    es != [] ==>
      var now := seen || Reached(s, t);
      && (s.running == t && es[0].Own? && es[0].op == ClearCounter ==> now)
      && (StepOk(s, es[0]); Polled(Step(s, es[0]), es[1..], t, now && !Calls(s, es[0], t)))
  }

  /** Whether there has been such a moment, after the run. */
  ghost predicate SeenAfter(s: System, es: seq<Event>, t: nat, seen: bool)
    requires Ok(s) && Legal(s, es)
    decreases |es|
  {
    if es == [] then seen
    else (StepOk(s, es[0]); SeenAfter(Step(s, es[0]), es[1..], t, (seen || Reached(s, t)) && !Calls(s, es[0], t)))
  }

  /** The process at place i of terminal t waits for d interrupts a read all the time. */
  ghost predicate RateStays(s: System, es: seq<Event>, t: nat, i: nat, d: nat)
    requires Ok(s) && Legal(s, es) && StaysOpen(s, es, t, i)
    decreases |es|
  {
    && Proc(s, t, i).rtcFreq == d
    && (es != [] ==> (StepOk(s, es[0]); RateStays(Step(s, es[0]), es[1..], t, i, d)))
  }

  lemma SameStack(s: System, r: System, t: nat)
    requires Reached(s, t) && t < |r.consoles| && r.consoles[t].stack == s.consoles[t].stack
    ensures Reached(r, t)
  {
  }

  lemma StaysReached(s: System, e: Event, t: nat)
    requires Ok(s) && Enabled(s, e) && Reached(s, t) && !Calls(s, e, t)
    ensures Reached(Step(s, e), t)
  {
    hide Distinct, TableOk;
    assert At(s, t, |s.consoles[t].stack| - 1);
    StepOk(s, e);
    if e.Tick? {
      hide Reached;
      if !Booted(s) && s.consoles[s.shellTid].stack == [] {
        BootPid(s);
      }
      SameStack(s, Step(s, e), t);
    }
  }

  /** Every read of the run clears at least d interrupts. */
  ghost predicate ReadsWait(s: System, es: seq<Event>, t: nat, i: nat, d: nat)
    requires Ok(s) && Legal(s, es) && StaysOpen(s, es, t, i)
    decreases |es|
  {
    es != [] ==>
      && (Clears(s, es[0], t, i) ==> Proc(s, t, i).rtcCounter >= d)
      && (StepOk(s, es[0]); ReadsWait(Step(s, es[0]), es[1..], t, i, d))
  }

  /** Having once seen the target reached is enough: no read clears less, whatever happens before it gets to clear. */
  lemma {:induction false} PolledWaits(s: System, es: seq<Event>, t: nat, i: nat, d: nat, seen: bool)
    requires Ok(s) && Legal(s, es) && StaysOpen(s, es, t, i) && RateStays(s, es, t, i, d)
    requires Polled(s, es, t, seen) && (seen ==> Reached(s, t))
    ensures ReadsWait(s, es, t, i, d)
    decreases |es|
  {
    if es != [] {
      hide Ok, Enabled, Step;
      StepOk(s, es[0]);
      var now := seen || Reached(s, t);
      if now && !Calls(s, es[0], t) {
        StaysReached(s, es[0], t);
      }
      PolledWaits(Step(s, es[0]), es[1..], t, i, d, now && !Calls(s, es[0], t));
    }
  }

  ghost function Reads(s: System, es: seq<Event>, t: nat, i: nat): nat
    requires Ok(s) && Legal(s, es) && StaysOpen(s, es, t, i)
    decreases |es|
  {
    if es == [] then 0
    else
      StepOk(s, es[0]);
      (if Clears(s, es[0], t, i) then 1 else 0) + Reads(Step(s, es[0]), es[1..], t, i)
  }

  lemma {:induction false} ReadsClearEnough(s: System, es: seq<Event>, t: nat, i: nat, d: nat)
    requires Ok(s) && Legal(s, es) && StaysOpen(s, es, t, i) && ReadsWait(s, es, t, i, d)
    ensures Cleared(s, es, t, i) >= Reads(s, es, t, i) * d
    decreases |es|
  {
    hide Ok, Step;
    if es != [] {
      StepOk(s, es[0]);
      assert ReadsWait(Step(s, es[0]), es[1..], t, i, d);
      var later := Reads(Step(s, es[0]), es[1..], t, i);
      ReadsClearEnough(Step(s, es[0]), es[1..], t, i, d);
      assert (1 + later) * d == d + later * d;
    }
  }

  /**
   * Reads completed at frequency f never run ahead of the clock: each takes at least 1024 / f interrupts, across any
   * activity of other processes and with interrupts allowed between the check of the counter and its reset.
   */
  lemma ReadsTakeTime(s: System, es: seq<Event>, t: nat, i: nat, f: int, seen: bool)
    requires Ok(s) && Legal(s, es) && StaysOpen(s, es, t, i) && Polled(s, es, t, seen) && (seen ==> Reached(s, t))
    requires FreqToRate(f) != -1 && RateStays(s, es, t, i, TicksPerRead(f))
    ensures f * TicksPerRead(f) == 1024
    ensures Reads(s, es, t, i) * TicksPerRead(f) <= Proc(s, t, i).rtcCounter + Interrupts(es)
  {
    RateCodes(f);
    PolledWaits(s, es, t, i, TicksPerRead(f), seen);
    ReadsClearEnough(s, es, t, i, TicksPerRead(f));
    InterruptsAreConserved(s, es, t, i);
    StepOkAt(s, es, t, i);
  }

  lemma StepOkAt(s: System, es: seq<Event>, t: nat, i: nat)
    requires Ok(s) && Legal(s, es) && At(Run(s, es), t, i)
    ensures Proc(Run(s, es), t, i).rtcCounter >= 0
  {
    assert ProcessOk(Proc(Run(s, es), t, i));
  }

  /** Nobody on terminal t makes a call during the run: its processes are waiting or preempted. */
  ghost predicate Quiet(s: System, es: seq<Event>, t: nat)
    requires Ok(s) && Legal(s, es)
    decreases |es|
  {
    es != [] ==>
      && !Calls(s, es[0], t)
      && (StepOk(s, es[0]); Quiet(Step(s, es[0]), es[1..], t))
  }

  function Counted(p: Process, n: nat): Process {
    if p.rtcFreq == 0 then p else p.(rtcCounter := p.rtcCounter + n)
  }

  lemma QuietStep(s: System, e: Event, t: nat, i: nat)
    requires Ok(s) && Booted(s) && Enabled(s, e) && At(s, t, i)
    requires !Calls(s, e, t)
    ensures At(Step(s, e), t, i)
    ensures Proc(Step(s, e), t, i) == Counted(Proc(s, t, i), if e.Interrupt? then 1 else 0)
  {
  }

  /**
   * A reader that has seen its counter reach the target still has at least the target counted when, after any
   * activity elsewhere and any further interrupts, it gets to clear the counter.
   */
  lemma {:induction false} WaitingCounts(s: System, es: seq<Event>, t: nat, i: nat)
    requires Ok(s) && Booted(s) && Legal(s, es) && Quiet(s, es, t) && At(s, t, i)
    ensures At(Run(s, es), t, i) && Proc(Run(s, es), t, i) == Counted(Proc(s, t, i), Interrupts(es))
    ensures Proc(s, t, i).rtcCounter >= Proc(s, t, i).rtcFreq ==>
              Proc(Run(s, es), t, i).rtcCounter >= Proc(Run(s, es), t, i).rtcFreq
    decreases |es|
  {
    if es != [] {
      BootedStaysBooted(s, es[0]);
      QuietStep(s, es[0], t, i);
      WaitingCounts(Step(s, es[0]), es[1..], t, i);
    }
  }
}
