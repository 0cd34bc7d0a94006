// Where control comes from: every context a timer tick loads and every context a halt returns to was saved by one
// particular earlier event of the run.
module Handovers {
  import opened Bytes
  import opened Descriptors
  import opened ProcessStacks
  import opened Frequencies
  import opened Runs

  // ---- Runs cut in two ----

  lemma {:induction false} RunSplits(s: System, es: seq<Event>, n: nat)
    requires Ok(s) && Legal(s, es) && n <= |es|
    ensures Legal(s, es[..n]) && Legal(Run(s, es[..n]), es[n..]) && Run(s, es) == Run(Run(s, es[..n]), es[n..])
    decreases n
  {
    hide Ok, Enabled, Step;
    if n == 0 {
      assert es[..0] == [] && es[0..] == es;
    } else {
      StepOk(s, es[0]);
      RunSplits(Step(s, es[0]), es[1..], n - 1);
      assert es[..n][1..] == es[1..][..n - 1] && es[1..][n - 1..] == es[n..];
    }
  }

  /** The run up to an event, that event, and the rest. */
  lemma RunAround(s: System, es: seq<Event>, n: nat)
    requires Ok(s) && Legal(s, es) && n < |es|
    ensures Legal(s, es[..n]) && Enabled(Run(s, es[..n]), es[n])
    ensures var r := Step(Run(s, es[..n]), es[n]);
            Ok(r) && Legal(r, es[n + 1..]) && Run(s, es) == Run(r, es[n + 1..])
  {
    hide Ok, Enabled, Step;
    RunSplits(s, es, n);
    assert es[n..][0] == es[n] && es[n..][1..] == es[n + 1..];
    StepOk(Run(s, es[..n]), es[n]);
  }

  /** The machine after the first n events of a run. */
  ghost function After(s: System, es: seq<Event>, n: nat): (r: System)
    requires Ok(s) && Legal(s, es) && n <= |es|
    ensures Ok(r) && Legal(s, es[..n]) && r == Run(s, es[..n])
  {
    RunSplits(s, es, n);
    Run(s, es[..n])
  }

  lemma AfterNext(s: System, es: seq<Event>, n: nat)
    requires Ok(s) && Legal(s, es) && n < |es|
    ensures Enabled(After(s, es, n), es[n]) && After(s, es, n + 1) == Step(After(s, es, n), es[n])
  {
    hide Ok, Enabled, Step;
    RunAround(s, es, n);
    RunSplits(s, es, n + 1);
    RunAround(s, es[..n + 1], n);
    assert es[..n + 1][..n] == es[..n] && es[..n + 1][n + 1..] == [];
  }

  /** The events of a run from m to l. */
  ghost function Stretch(s: System, es: seq<Event>, m: nat, l: nat): (r: seq<Event>)
    requires Ok(s) && Legal(s, es) && m <= l <= |es|
    ensures Legal(After(s, es, m), r)
  {
    RunSplits(s, es, l);
    RunSplits(s, es[..l], m);
    assert es[..l][..m] == es[..m] && es[..l][m..] == es[m..l];
    es[m..l]
  }

  lemma Untouches(a: seq<Process>, b: seq<Process>, c: seq<Process>)
    requires Untouched(a, b) && Untouched(b, c)
    ensures Untouched(a, c)
  {
  }

  // ---- The clock over a stretch of a run ----

  lemma {:induction false} PolledBefore(s: System, es: seq<Event>, t: nat, seen: bool, n: nat)
    requires Ok(s) && Legal(s, es) && Polled(s, es, t, seen) && n <= |es|
    ensures Legal(s, es[..n]) && Polled(s, es[..n], t, seen)
    decreases n
  {
    hide Ok, Enabled, Step, Reached, Calls;
    if n > 0 {
      StepOk(s, es[0]);
      PolledBefore(Step(s, es[0]), es[1..], t, (seen || Reached(s, t)) && !Calls(s, es[0], t), n - 1);
      assert es[..n][1..] == es[1..][..n - 1];
    }
  }

  /** A reader that is past its loop in the middle of a run has its target reached there. */
  lemma {:induction false} PolledBehind(s: System, es: seq<Event>, t: nat, seen: bool, n: nat) returns (now: bool)
    requires Ok(s) && Legal(s, es) && Polled(s, es, t, seen) && (seen ==> Reached(s, t)) && n <= |es|
    ensures Legal(s, es[..n]) && Legal(Run(s, es[..n]), es[n..]) && Polled(Run(s, es[..n]), es[n..], t, now)
    ensures now ==> Reached(Run(s, es[..n]), t)
    decreases n
  {
    hide Ok, Enabled, Step, Reached, Calls;
    if n == 0 {
      assert es[..0] == [] && es[0..] == es;
      now := seen;
    } else {
      StepOk(s, es[0]);
      now := (seen || Reached(s, t)) && !Calls(s, es[0], t);
      if now {
        StaysReached(s, es[0], t);
      }
      now := PolledBehind(Step(s, es[0]), es[1..], t, now, n - 1);
      assert es[..n][1..] == es[1..][..n - 1] && es[1..][n - 1..] == es[n..];
    }
  }

  /** So in any stretch of a run its reads take their time. */
  lemma StretchTakesTime(s: System, es: seq<Event>, t: nat, i: nat, f: int, m: nat, l: nat)
    requires Ok(s) && Legal(s, es) && Polled(s, es, t, false) && m <= l <= |es|
    requires StaysOpen(After(s, es, m), Stretch(s, es, m, l), t, i)
    requires FreqToRate(f) != -1 && RateStays(After(s, es, m), Stretch(s, es, m, l), t, i, TicksPerRead(f))
    ensures f * TicksPerRead(f) == 1024
    ensures Reads(After(s, es, m), Stretch(s, es, m, l), t, i) * TicksPerRead(f)
            <= Proc(After(s, es, m), t, i).rtcCounter + Interrupts(es[m..l])
  {
    hide Ok, Reached;
    PolledBefore(s, es, t, false, l);
    var seen := PolledBehind(s, es[..l], t, false, m);
    assert es[..l][..m] == es[..m] && es[..l][m..] == es[m..l];
    ReadsTakeTime(After(s, es, m), Stretch(s, es, m, l), t, i, f, seen);
  }

  // ---- Parking ----

  /** The event preempts and parks terminal t: a tick of the booted machine, or one that starts the next shell. */
  predicate Parks(s: System, e: Event, t: nat) {
    && e.Tick? && s.running == t
    && (s.shellTid >= TERMINALS || (0 < s.shellTid < |s.consoles| && s.consoles[s.shellTid].stack == []))
  }

  /** The last event of the run that parks terminal t. */
  ghost function LastParking(s: System, es: seq<Event>, t: nat): (j: Option<nat>)
    requires Ok(s) && Legal(s, es)
    ensures j.Some? ==> j.value < |es|
    decreases |es|
  {
    if es == [] then None
    else
      StepOk(s, es[0]);
      var later := LastParking(Step(s, es[0]), es[1..], t);
      if later.Some? then Some(later.value + 1) else if Parks(s, es[0], t) then Some(0) else None
  }

  lemma {:induction false} LastParkingIs(s: System, es: seq<Event>, t: nat)
    requires Ok(s) && Legal(s, es) && LastParking(s, es, t).Some?
    ensures var j := LastParking(s, es, t).value;
            && Legal(s, es[..j]) && Enabled(Run(s, es[..j]), es[j]) && Parks(Run(s, es[..j]), es[j], t)
            && var r := Step(Run(s, es[..j]), es[j]);
               Ok(r) && Legal(r, es[j + 1..]) && LastParking(r, es[j + 1..], t).None?
                 && Run(s, es) == Run(r, es[j + 1..])
    decreases |es|
  {
    hide Ok, Enabled, Step, Parks;
    StepOk(s, es[0]);
    var j := LastParking(s, es, t).value;
    RunAround(s, es, j);
    if j == 0 {
      assert es[..0] == [];
    } else {
      LastParkingIs(Step(s, es[0]), es[1..], t);
      assert es[..j][1..] == es[1..][..j - 1] && es[1..][j..] == es[j + 1..] && es[1..][j - 1] == es[j];
    }
  }

  /** A terminal that does not run after a step has just been parked, or keeps the context and the stack it had. */
  lemma StepParks(s: System, e: Event, t: nat)
    requires Ok(s) && Enabled(s, e) && t < TERMINALS && Ok(Step(s, e)) && Step(s, e).running != t
    ensures s.running == t ==> Parks(s, e, t)
    ensures Step(s, e).consoles[t].parked == if Parks(s, e, t) then Some(e.preempted) else s.consoles[t].parked
    ensures Untouched(s.consoles[t].stack, Step(s, e).consoles[t].stack)
  {
    hide ProcessOk, Distinct;
    if e.Tick? && !Booted(s) && s.consoles[s.shellTid].stack == [] {
      BootPid(s);
    }
  }

  /** While no event parks it, a terminal that does not run at the end has not run, and is parked as it was. */
  lemma {:induction false} NotParked(s: System, es: seq<Event>, t: nat)
    requires Ok(s) && Legal(s, es) && t < TERMINALS && LastParking(s, es, t).None? && Run(s, es).running != t
    ensures s.running != t && Run(s, es).consoles[t].parked == s.consoles[t].parked
    ensures Untouched(s.consoles[t].stack, Run(s, es).consoles[t].stack)
    decreases |es|
  {
    hide ProcessOk, Distinct, BootOrder, Step, Enabled, Parks;
    if es != [] {
      StepOk(s, es[0]);
      NotParked(Step(s, es[0]), es[1..], t);
      StepParks(s, es[0], t);
      Untouches(s.consoles[t].stack, Step(s, es[0]).consoles[t].stack, Run(s, es).consoles[t].stack);
    }
  }

  /**
   * A terminal that does not run is parked with the context that the last event to park it saved, and its stack is the
   * one it was parked with; from power on, before any such event it has no context and no process.
   */
  lemma ParkedIsLastSaved(s: System, es: seq<Event>, t: nat)
    requires Ok(s) && Legal(s, es) && t < TERMINALS && Run(s, es).running != t
    ensures var r, j := Run(s, es), LastParking(s, es, t);
            if j.None? then
              && s.running != t && r.consoles[t].parked == s.consoles[t].parked
              && Untouched(s.consoles[t].stack, r.consoles[t].stack)
            else
              && Legal(s, es[..j.value]) && Parks(Run(s, es[..j.value]), es[j.value], t)
              && r.consoles[t].parked == Some(es[j.value].preempted)
              && Untouched(Run(s, es[..j.value]).consoles[t].stack, r.consoles[t].stack)
  {
    hide ProcessOk, Distinct, BootOrder, Step, Enabled;
    if LastParking(s, es, t).None? {
      NotParked(s, es, t);
    } else {
      LastParkingIs(s, es, t);
      var j := LastParking(s, es, t).value;
      var before := Run(s, es[..j]);
      var after := Step(before, es[j]);
      NotParked(after, es[j + 1..], t);
      StepParks(before, es[j], t);
      Untouches(before.consoles[t].stack, after.consoles[t].stack, Run(s, es).consoles[t].stack);
    }
  }

  /**
   * From power on, through the boot and ever after: once the shells are up, the terminal whose turn it is has been
   * parked before, and what the next tick loads for it is what was saved then, when the same processes were on its
   * stack.
   */
  lemma NextTickLoadsLastSaved(es: seq<Event>)
    requires Legal(PowerOn(), es) && Booted(Run(PowerOn(), es))
    ensures var r := Run(PowerOn(), es);
            var j := LastParking(PowerOn(), es, Next(r));
            && j.Some? && Legal(PowerOn(), es[..j.value]) && Parks(Run(PowerOn(), es[..j.value]), es[j.value], Next(r))
            && r.consoles[Next(r)].parked == Some(es[j.value].preempted)
            && Untouched(Run(PowerOn(), es[..j.value]).consoles[Next(r)].stack, r.consoles[Next(r)].stack)
  {
    hide ProcessOk, Distinct, BootOrder, Step, Enabled, Run;
    var r := Run(PowerOn(), es);
    ParkedIsLastSaved(PowerOn(), es, Next(r));
    assert At(r, Next(r), 0);
  }

  // ---- Executing ----

  /** The event puts a program at place d of terminal t. */
  ghost predicate Starts(s: System, e: Event, t: nat, d: nat) {
    && e.Execute? && e.program.Some? && FreePid(s, 0) != -1
    && s.running == t < |s.consoles| && |s.consoles[t].stack| == d
  }

  /** The last event of the run that puts a program at place d of terminal t. */
  ghost function LastStart(s: System, es: seq<Event>, t: nat, d: nat): (j: Option<nat>)
    requires Ok(s) && Legal(s, es)
    ensures j.Some? ==> j.value < |es|
    decreases |es|
  {
    if es == [] then None
    else
      StepOk(s, es[0]);
      var later := LastStart(Step(s, es[0]), es[1..], t, d);
      if later.Some? then Some(later.value + 1) else if Starts(s, es[0], t, d) then Some(0) else None
  }

  lemma {:induction false} LastStartIs(s: System, es: seq<Event>, t: nat, d: nat)
    requires Ok(s) && Legal(s, es) && LastStart(s, es, t, d).Some?
    ensures var j := LastStart(s, es, t, d).value;
            && Legal(s, es[..j]) && Enabled(Run(s, es[..j]), es[j]) && Starts(Run(s, es[..j]), es[j], t, d)
            && var r := Step(Run(s, es[..j]), es[j]);
               Ok(r) && Legal(r, es[j + 1..]) && LastStart(r, es[j + 1..], t, d).None?
                 && Run(s, es) == Run(r, es[j + 1..])
    decreases |es|
  {
    hide Ok, Enabled, Step, Starts;
    StepOk(s, es[0]);
    var j := LastStart(s, es, t, d).value;
    RunAround(s, es, j);
    if j == 0 {
      assert es[..0] == [];
    } else {
      LastStartIs(Step(s, es[0]), es[1..], t, d);
      assert es[..j][1..] == es[1..][..j - 1] && es[1..][j..] == es[j + 1..] && es[1..][j - 1] == es[j];
    }
  }

  /** A place above the bottom is filled by an execute and by nothing else. */
  lemma StepFills(s: System, e: Event, t: nat, d: nat)
    requires Ok(s) && Enabled(s, e) && t < TERMINALS && d > 0 && Ok(Step(s, e)) && At(Step(s, e), t, d)
    ensures Starts(s, e, t, d) || (Booted(s) && At(s, t, d))
  {
    hide ProcessOk, Distinct;
    if e.Tick? && !Booted(s) && s.consoles[s.shellTid].stack == [] {
      BootPid(s);
    }
  }

  /** While no event puts a program there, the process at a place above the bottom has been there all the time. */
  lemma {:induction false} NotStarted(s: System, es: seq<Event>, t: nat, d: nat)
    requires Ok(s) && Legal(s, es) && t < TERMINALS && d > 0 && LastStart(s, es, t, d).None? && At(Run(s, es), t, d)
    ensures At(s, t, d) && BaseKept(s.consoles[t].stack, Run(s, es).consoles[t].stack, d)
    decreases |es|
  {
    hide ProcessOk, Distinct, BootOrder, Step, Enabled, Starts;
    if es != [] {
      StepOk(s, es[0]);
      NotStarted(Step(s, es[0]), es[1..], t, d);
      StepFills(s, es[0], t, d);
      StepKeepsBase(s, es[0], t, d);
      BasesKept(s.consoles[t].stack, Step(s, es[0]).consoles[t].stack, Run(s, es).consoles[t].stack, d);
    }
  }

  lemma BasesKept(a: seq<Process>, b: seq<Process>, c: seq<Process>, d: nat)
    requires d < |a| && d < |b| && d < |c| && BaseKept(a, b, d) && BaseKept(b, c, d)
    ensures BaseKept(a, c, d)
  {
    Untouches(a[..d], b[..d], c[..d]);
  }

  /**
   * Every process above the bottom of a terminal was put there by one execute of the run, the last at that place: it
   * has the pid, the argument and the return context of that execute, and below it lies the caller's stack as it was.
   */
  lemma StartedByLastExecute(es: seq<Event>, t: nat, d: nat)
    requires Legal(PowerOn(), es) && d > 0 && At(Run(PowerOn(), es), t, d)
    ensures var r, j := Run(PowerOn(), es), LastStart(PowerOn(), es, t, d);
            && j.Some? && Legal(PowerOn(), es[..j.value])
            && var caller := Run(PowerOn(), es[..j.value]);
            && Starts(caller, es[j.value], t, d)
            && Proc(r, t, d).returnTo == es[j.value].caller && Proc(r, t, d).pid == FreePid(caller, 0)
            && Proc(r, t, d).args == es[j.value].program.value
            && Untouched(caller.consoles[t].stack, r.consoles[t].stack[..d])
  {
    hide ProcessOk, Distinct, BootOrder, Enabled, Run;
    if LastStart(PowerOn(), es, t, d).None? {
      NotStarted(PowerOn(), es, t, d);
      assert false;
    }
    LastStartIs(PowerOn(), es, t, d);
    var j := LastStart(PowerOn(), es, t, d).value;
    var caller := Run(PowerOn(), es[..j]);
    var started := Step(caller, es[j]);
    assert started.consoles[t].stack[..d] == caller.consoles[t].stack;
    NotStarted(started, es[j + 1..], t, d);
  }

  /**
   * So a halt that ends any program but a terminal's own shell hands control to the context that the program's own
   * execute saved, uncovers the stack that execute found, and frees the pid it took.
   */
  lemma HaltReturnsToItsExecute(es: seq<Event>, restart: Context)
    requires Legal(PowerOn(), es) && Booted(Run(PowerOn(), es))
    requires var r := Run(PowerOn(), es); |r.consoles[r.running].stack| > 1
    ensures var r := Run(PowerOn(), es);
            var t := r.running;
            var j := LastStart(PowerOn(), es, t, |r.consoles[t].stack| - 1);
            && j.Some? && Legal(PowerOn(), es[..j.value])
            && var caller := Run(PowerOn(), es[..j.value]);
            && Starts(caller, es[j.value], t, |r.consoles[t].stack| - 1) && Top(r).returnTo == es[j.value].caller
            && Untouched(caller.consoles[t].stack, HaltStep(r, restart).consoles[t].stack)
            && FreePid(caller, 0) == Top(r).pid && !Live(HaltStep(r, restart), Top(r).pid)
  {
    hide Enabled, Run, Step, Starts;
    var r := Run(PowerOn(), es);
    var d := |r.consoles[r.running].stack| - 1;
    StartedByLastExecute(es, r.running, d);
    var halted := HaltStep(r, restart);
    forall u, i | At(halted, u, i) ensures Proc(halted, u, i).pid != Top(r).pid {
      assert At(r, u, i) && At(r, r.running, d) && Proc(halted, u, i) == Proc(r, u, i);
    }
  }
}
