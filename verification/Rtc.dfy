// The virtualised real-time clock of student-distrib/rtc.c: one tick counter and one target per process.
module Rtc {
  import opened Bytes
  import opened Descriptors
  import opened ProcessStacks
  import opened KernelTables
  import opened Kernel
  import opened FileCalls
  import opened Frequencies
  import FS = FileSystem

  // ---- The interrupt ----

  /** One interrupt adds one to the counter of every live process whose clock is open. */
  method RtcHandler(k: Kernel)
    requires k.Valid()
    modifies k`sys, k.pcbArray
    ensures k.Valid() && k.sys == InterruptStep(old(k.sys))
  {
    ghost var before, s := k.View(), k.sys;
    CountInterrupt(k);
    InterruptRepresents(before, s, k.View());
    k.sys := InterruptStep(s);
  }

  method CountInterrupt(k: Kernel)
    requires k.Sizes()
    modifies k.pcbArray
    ensures forall p :: 0 <= p < PROCESSES ==>
              k.pcbArray[p] == if k.processArray[p] == 0 then old(k.pcbArray[p]) else InterruptedPcb(old(k.pcbArray[p]))
  {
    for target := 0 to PROCESSES
      invariant forall p :: 0 <= p < PROCESSES ==>
                  k.pcbArray[p] == if p >= target || k.processArray[p] == 0 then old(k.pcbArray[p])
                                   else InterruptedPcb(old(k.pcbArray[p]))
    {
      if k.processArray[target] == 0 {
        continue;
      }
      var pcb := k.pcbArray[target];
      if pcb.rtcFreq == 0 {
        continue;
      }
      k.pcbArray[target] := pcb.(rtcCounter := pcb.rtcCounter + 1);
    }
  }

  // ---- Reading: wait for the target, then clear ----

  ghost function AfterInterrupts(s: System, n: nat): (r: System)
    requires Ok(s)
    ensures Ok(r) && (Booted(s) ==> Booted(r))
  {
    if n == 0 then s else
      InterruptOk(AfterInterrupts(s, n - 1));
      InterruptStep(AfterInterrupts(s, n - 1))
  }

  lemma {:induction false} InterruptsCount(s: System, n: nat)
    requires Ok(s) && Booted(s)
    ensures var r := AfterInterrupts(s, n);
            && TopTable(r) == TopTable(s) && Top(r).rtcFreq == Top(s).rtcFreq
            && Top(r).rtcCounter == if Top(s).rtcFreq == 0 then Top(s).rtcCounter else Top(s).rtcCounter + n
  {
    if n > 0 {
      InterruptsCount(s, n - 1);
      TopInterrupted(AfterInterrupts(s, n - 1));
    }
  }

  lemma TopInterrupted(s: System)
    requires Ok(s) && Booted(s)
    ensures Ok(InterruptStep(s)) && Booted(InterruptStep(s)) && Top(InterruptStep(s)) == Interrupted(Top(s))
  {
    InterruptOk(s);
  }

  /** The counter's value when a read may stop waiting, and how many interrupts that is from now. */
  function StillToCome(p: Process): nat {
    if p.rtcFreq > p.rtcCounter then p.rtcFreq - p.rtcCounter else 0
  }

  /** That many interrupts, and no fewer, bring the counter to its target. */
  lemma WaitsJustLongEnough(s: System, n: nat)
    requires Ok(s) && Booted(s)
    ensures Top(AfterInterrupts(s, n)).rtcCounter >= Top(s).rtcFreq <==> n >= StillToCome(Top(s))
  {
    hide AfterInterrupts;
    InterruptsCount(s, n);
    CounterCounts(s);
  }

  lemma CounterCounts(s: System)
    requires Ok(s) && Booted(s)
    ensures Top(s).rtcCounter >= 0
  {
    assert At(s, s.running, |s.consoles[s.running].stack| - 1);
    assert ProcessOk(Top(s));
  }

  /**
   * rtc_read on a machine where only interrupts happen meanwhile: it spins until its counter has reached its target,
   * which takes exactly the interrupts still to come, and then clears the counter.
   */
  method RtcRead(k: Kernel) returns (r: int)
    requires k.Valid() && Booted(k.sys)
    modifies k`sys, k.pcbArray
    ensures k.Valid() && r == 0
    ensures var s := AfterInterrupts(old(k.sys), StillToCome(Top(old(k.sys))));
            k.sys == OwnStep(s, TopTable(s), ClearCounter)
  {
    Spin(k);
    RtcClear(k);
    r := 0;
  }

  /** The busy wait of rtc_read. */
  method Spin(k: Kernel)
    requires k.Valid() && Booted(k.sys)
    modifies k`sys, k.pcbArray
    ensures k.Valid() && k.sys == AfterInterrupts(old(k.sys), StillToCome(Top(old(k.sys))))
  {
    hide AllRecorded, LiveRecorded, TerminalsRecorded, Current, TableOk, InterruptStep, Distinct, BootOrder;
    ghost var s, n := k.sys, 0;
    CurrentRecord(k.View(), k.sys);
    var target := k.pcbArray[k.currPid].rtcFreq;
    while target > k.pcbArray[k.currPid].rtcCounter
      invariant k.Valid() && 0 <= k.currPid < PROCESSES && n <= StillToCome(Top(s))
      invariant k.sys == AfterInterrupts(s, n) && target == Top(s).rtcFreq
      invariant k.pcbArray[k.currPid].rtcCounter == Top(AfterInterrupts(s, n)).rtcCounter
      decreases StillToCome(Top(s)) - n
    {
      InterruptsCount(s, n);
      Waits(k, s, n);
      n := n + 1;
    }
    InterruptsCount(s, n);
  }

  /** One more interrupt while the reader spins. */
  method Waits(k: Kernel, ghost s: System, ghost n: nat)
    requires k.Valid() && Ok(s) && Booted(s) && k.sys == AfterInterrupts(s, n)
    modifies k`sys, k.pcbArray
    ensures k.Valid() && k.sys == AfterInterrupts(s, n + 1)
    ensures 0 <= k.currPid < PROCESSES && k.pcbArray[k.currPid].rtcCounter == Top(k.sys).rtcCounter
  {
    hide AllRecorded, LiveRecorded, TerminalsRecorded, Current, ProcessOk;
    RtcHandler(k);
    CurrentRecord(k.View(), k.sys);
  }

  method RtcClear(k: Kernel)
    requires k.Valid() && Booted(k.sys)
    modifies k`sys, k.pcbArray
    ensures k.Valid() && k.sys == OwnStep(old(k.sys), TopTable(old(k.sys)), ClearCounter)
  {
    hide AllRecorded, LiveRecorded, TerminalsRecorded, Current, ProcessOk;
    CurrentRecord(k.View(), k.sys);
    Store(k, k.pcbArray[k.currPid].fds, ClearCounter);
  }

  // ---- Writing: a new frequency ----

  /** The interrupts per read a write asks for, if it is a write of four bytes that hold a valid frequency. */
  function Target(buf: Option<seq<Byte>>, nbytes: int): (t: Option<nat>)
    requires buf.Some? && nbytes == 4 ==> |buf.value| >= 4
    ensures t.Some? ==> t.value > 0
  {
    if buf.None? || nbytes != 4 then None
    else
      var freq := Signed32(FS.LittleEndian(buf.value[..4]));
      if FreqToRate(freq) == -1 then None else Some(TicksPerRead(freq))
  }

  /** A valid frequency, written low byte first, asks for 1024 divided by it. */
  lemma TargetOfFrequency(freq: nat)
    requires FreqToRate(freq) != -1
    ensures freq < 0x1_0000_0000
    ensures var t := Target(Some(FS.Num32(freq)), 4);
            t.Some? && t.value * freq == 1024
  {
    hide FS.LittleEndian, FS.Num32;
    RateCodes(freq);
    FS.NumberComesBack(freq);
    assert FS.Num32(freq)[..4] == FS.Num32(freq);
  }

  /** Opening the clock sets it to two reads a second. */
  lemma OpensAtTwo(p: Process)
    ensures Clock(p, OpenClock).rtcFreq == TicksPerRead(2) && FreqToRate(2) != -1
  {
  }

  /** A valid frequency sets the target; any other write is refused and changes nothing. */
  method RtcWrite(k: Kernel, buf: Option<seq<Byte>>, nbytes: int) returns (r: int)
    requires k.Valid() && Booted(k.sys) && (buf.Some? && nbytes == 4 ==> |buf.value| >= 4)
    modifies k`sys, k.pcbArray
    ensures k.Valid()
    ensures var t := Target(buf, nbytes);
            if t.Some? then r == 0 && k.sys == OwnStep(old(k.sys), TopTable(old(k.sys)), SetRate(t.value))
            else r == -1 && k.sys == old(k.sys)
  {
    hide AllRecorded, LiveRecorded, TerminalsRecorded, Current, ProcessOk;
    hide FreqToRate, FS.LittleEndian, Signed32;
    if buf.None? || nbytes != 4 {
      return -1;
    }
    var freq := Signed32(FS.LittleEndian(buf.value[..4]));
    var valid := FreqToRate(freq);
    if valid == -1 {
      return -1;
    }
    r := 0;
    RateCodes(freq);
    SetTarget(k, 1024 / freq);
  }

  method SetTarget(k: Kernel, ticks: nat)
    requires k.Valid() && Booted(k.sys) && ticks > 0
    modifies k`sys, k.pcbArray
    ensures k.Valid() && k.sys == OwnStep(old(k.sys), TopTable(old(k.sys)), SetRate(ticks))
  {
    hide AllRecorded, LiveRecorded, TerminalsRecorded, Current, ProcessOk;
    CurrentRecord(k.View(), k.sys);
    Store(k, k.pcbArray[k.currPid].fds, SetRate(ticks));
  }
}
