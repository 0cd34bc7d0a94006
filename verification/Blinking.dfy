// What blinking lights look like over time, and what any run of the fish program's calls leaves on its list.
module Blinking {
  import opened Bytes
  import opened Blinker
  import V = Screen

  // ---- One light over n ticks ----

  function After(l: Light, n: nat): Light {
    if n == 0 then l else Ticked(After(l, n - 1))
  }

  function Cycle(l: Light): nat {
    l.onLength as int + l.offLength as int
  }

  /** A length the 16-bit countdown can count: it stays positive when read as signed after the first tick. */
  predicate Countable(length: Word) {
    1 <= length <= 0x8000
  }

  lemma ModStep(n: nat, m: nat)
    requires m > 0
    ensures (n + 1) % m == if n % m + 1 == m then 0 else n % m + 1
  {
    var q, r := n / m, n % m;
    assert n == q * m + r;
    if r + 1 == m {
      ModIs(n + 1, m, q + 1, 0);
    } else {
      ModIs(n + 1, m, q, r + 1);
    }
  }

  lemma ModIs(n: nat, m: nat, q: nat, r: nat)
    requires r < m && n == q * m + r
    ensures n % m == r
  {
    var x: int := n / m - q;
    assert x * m == n / m * m - q * m == r - n % m;
    Outgrows(x, m);
  }

  lemma Outgrows(x: int, m: nat)
    ensures x >= 1 ==> x * m >= m
    ensures x <= -1 ==> x * m + m <= 0
  {
    assert x >= 1 ==> (x - 1) * m >= 0;
    assert x <= -1 ==> (-1 - x) * m >= 0;
  }

  /** While it is first on, a light only counts down. */
  lemma {:induction false} FirstOn(l: Light, n: nat)
    requires Countable(l.onLength) && n < l.onLength
    ensures After(Lit(l), n) == Lit(l).(countdown := l.onLength - n)
  {
    if n > 0 {
      FirstOn(l, n - 1);
    }
  }

  /** Where in its cycle a light is after n ticks, and how much of that part is left. */
  lemma {:induction false} CyclePhase(l: Light, n: nat)
    requires Countable(l.onLength) && Countable(l.offLength)
    ensures var p := n % Cycle(l);
            After(Lit(l), n) == if p < l.onLength then l.(status := 1, countdown := l.onLength - p)
                                else l.(status := 0, countdown := Cycle(l) - p)
  {
    if n > 0 {
      CyclePhase(l, n - 1);
      ModStep(n - 1, Cycle(l));
    } else {
      ModIs(0, Cycle(l), 0, 0);
    }
  }

  /** Added at time 0, the light is on at time n exactly when n lies in the on part of its cycle. */
  ghost predicate FollowsCycle(l: Light) {
    Cycle(l) > 0 &&
    forall n: nat :: After(Lit(l), n).status == 1 <==> n % Cycle(l) < l.onLength
  }

  /** The blinking follows the cycle for ever exactly when both lengths are from 1 to 32768. */
  lemma BlinksInCycle(l: Light)
    ensures FollowsCycle(l) <==> Countable(l.onLength) && Countable(l.offLength)
  {
    if Countable(l.onLength) && Countable(l.offLength) {
      forall n: nat ensures After(Lit(l), n).status == 1 <==> n % Cycle(l) < l.onLength {
        CyclePhase(l, n);
      }
    } else if Cycle(l) > 0 {
      var n := FirstLapse(l);
    }
  }

  /** A moment at which a light with a length out of range is not as its cycle has it. */
  lemma FirstLapse(l: Light) returns (n: nat)
    requires Cycle(l) > 0 && !(Countable(l.onLength) && Countable(l.offLength))
    ensures !(After(Lit(l), n).status == 1 <==> n % Cycle(l) < l.onLength)
  {
    var on, off := l.onLength as int, l.offLength as int;
    if on == 0 {
      n := 0;
      ModIs(0, off, 0, 0);
    } else if on > 0x8000 {
      n := 1;
      assert After(Lit(l), 1) == Ticked(After(Lit(l), 0)) == Ticked(Lit(l));
      ModIs(1, on + off, 0, 1);
    } else {
      FirstOn(l, on - 1);
      assert After(Lit(l), on) == Ticked(After(Lit(l), on - 1)) == l.(status := 0, countdown := off);
      if off == 0 {
        n := on;
        ModIs(on, on + off, 1, 0);
      } else {
        n := on + 1;
        assert After(Lit(l), on + 1) == Ticked(After(Lit(l), on));
        ModIs(on + 1, on + off, 0, on + 1);
      }
    }
  }

  // ---- Lights in step ----

  predicate InStep(a: Light, b: Light) {
    a.onLength == b.onLength && a.offLength == b.offLength && a.countdown == b.countdown && a.status == b.status
  }

  lemma {:induction false} StayInStep(a: Light, b: Light, n: nat)
    requires InStep(a, b)
    ensures InStep(After(a, n), After(b, n))
  {
    if n > 0 {
      StayInStep(a, b, n - 1);
    }
  }

  /** After a sync the two lights blink together for ever, whatever they did before and wherever they are. */
  lemma SyncedBlinkTogether(from: Light, to: Light, n: nat)
    ensures InStep(After(from, n), After(Synced(from, to), n))
    ensures After(Synced(from, to), n).location == to.location
  {
    StayInStep(from, Synced(from, to), n);
    KeepsPlace(Synced(from, to), n);
  }

  lemma {:induction false} KeepsPlace(l: Light, n: nat)
    ensures After(l, n).location == l.location
  {
    if n > 0 {
      KeepsPlace(l, n - 1);
    }
  }

  // ---- Any run of calls ----

  datatype Call = AddCall(l: Light) | RemoveCall(location: Word) | SyncCall(arg: nat) | TickCall

  predicate Proper(call: Call) {
    (call.AddCall? ==> call.l.location != 0) && (call.SyncCall? ==> call.arg < 0x1_0000_0000)
  }

  /** What a call does to the lights, as a user of the calls sees them. */
  function Effect(lights: seq<Light>, call: Call): seq<Light>
    requires Proper(call)
  {
    match call
    case AddCall(l) => if l.location < POOL && |lights| < POOL then [Lit(l)] + lights else lights
    case RemoveCall(location) =>
      var i := FirstAt(lights, location);
      if i < |lights| then Without(lights, i) else lights
    case SyncCall(arg) =>
      var i, j := FirstAt(lights, arg / 0x1_0000), FirstAt(lights, arg % 0x1_0000);
      if i < |lights| && j < |lights| then lights[j := Synced(lights[i], lights[j])] else lights
    case TickCall => AllTicked(lights)
  }

  function AfterCalls(lights: seq<Light>, calls: seq<Call>): seq<Light>
    requires forall i :: 0 <= i < |calls| ==> Proper(calls[i])
  {
    if calls == [] then lights else Effect(AfterCalls(lights, calls[..|calls| - 1]), calls[|calls| - 1])
  }

  lemma StayInPlace(lights: seq<Light>, call: Call)
    requires Proper(call) && InPlace(lights)
    ensures InPlace(Effect(lights, call))
  {
  }

  /** What a call draws. */
  function Painted(page: seq<Byte>, lights: seq<Light>, call: Call): (r: seq<Byte>)
    requires |page| == PAGE && InPlace(lights) && Proper(call)
    ensures |r| == PAGE
  {
    match call
    case AddCall(l) => if l.location < POOL && |lights| < POOL then page[CellOf(l) := l.onChar] else page
    case RemoveCall(_) => page
    case SyncCall(arg) =>
      var i, j := FirstAt(lights, arg / 0x1_0000), FirstAt(lights, arg % 0x1_0000);
      if i < |lights| && j < |lights| then page[CellOf(lights[j]) := lights[j].offChar] else page
    case TickCall => Redrawn(page, lights)
  }

  /** The screen and the lights after the calls. */
  ghost function Tank(page: seq<Byte>, lights: seq<Light>, calls: seq<Call>): (r: (seq<Byte>, seq<Light>))
    requires |page| == PAGE && InPlace(lights) && forall i :: 0 <= i < |calls| ==> Proper(calls[i])
    ensures |r.0| == PAGE && InPlace(r.1) && r.1 == AfterCalls(lights, calls)
  {
    if calls == [] then (page, lights)
    else
      var before, last := Tank(page, lights, calls[..|calls| - 1]), calls[|calls| - 1];
      StayInPlace(before.1, last);
      (Painted(before.0, before.1, last), Effect(before.1, last))
  }

  /** After any run of calls the pool holds a proper list; its lights and the screen are what the calls add up to. */
  method Replay(b: Blinker, calls: seq<Call>)
    requires b.Valid() && forall i :: 0 <= i < |calls| ==> Proper(calls[i])
    modifies b, b.pool, b.screen
    ensures b.Valid() && (b.screen[..], b.Shining()) == Tank(old(b.screen[..]), old(b.Shining()), calls)
  {
    hide Effect, Painted;
    ghost var page, lights := b.screen[..], b.Shining();
    for i := 0 to |calls|
      invariant b.Valid() && (b.screen[..], b.Shining()) == Tank(page, lights, calls[..i])
    {
      assert calls[..i + 1][..i] == calls[..i];
      Apply(b, calls[i]);
    }
    assert calls[..|calls|] == calls;
  }

  method Apply(b: Blinker, call: Call)
    requires b.Valid() && Proper(call)
    modifies b, b.pool, b.screen
    ensures b.Valid() && b.Shining() == Effect(old(b.Shining()), call)
    ensures b.screen[..] == Painted(old(b.screen[..]), old(b.Shining()), call)
  {
    match call
    case AddCall(l) =>
      var r := b.Add(l);
    case RemoveCall(location) =>
      var r := b.Remove(location);
    case SyncCall(arg) =>
      var r := b.Sync(arg);
    case TickCall =>
      b.Tasklet();
  }

  // ---- One light among all the calls ----

  /** The call adds, removes and syncs nothing at this location. */
  predicate LeavesAlone(call: Call, location: Word) {
    match call
    case AddCall(l) => l.location != location
    case RemoveCall(at) => at != location
    case SyncCall(arg) => arg % 0x1_0000 != location
    case TickCall => true
  }

  ghost predicate Undisturbed(calls: seq<Call>, location: Word) {
    forall i :: 0 <= i < |calls| ==> Proper(calls[i]) && LeavesAlone(calls[i], location)
  }

  function Ticks(calls: seq<Call>): nat {
    if calls == [] then 0 else Ticks(calls[..|calls| - 1]) + if calls[|calls| - 1].TickCall? then 1 else 0
  }

  /** After a call that leaves a location alone its newest light is the same one, ticked if the call is a tick. */
  lemma StaysNewest(lights: seq<Light>, call: Call, location: Word)
    requires Proper(call) && LeavesAlone(call, location) && FirstAt(lights, location) < |lights|
    ensures var i, r := FirstAt(lights, location), Effect(lights, call);
            && FirstAt(r, location) < |r|
            && r[FirstAt(r, location)] == if call.TickCall? then Ticked(lights[i]) else lights[i]
  {
    hide Ticked;
    var i, r := FirstAt(lights, location), Effect(lights, call);
    match call
    case AddCall(l) => FirstAtIs(r, location, if l.location < POOL && |lights| < POOL then i + 1 else i);
    case RemoveCall(at) =>
      var gone := FirstAt(lights, at);
      FirstAtIs(r, location, if gone < i then i - 1 else i);
    case SyncCall(arg) =>
      FirstAtIs(r, location, i);
    case TickCall =>
      TicksInPlace(lights);
      FirstAtIs(r, location, i);
  }

  /** Over any run of calls that leave its location alone a listed light is the light ticked by itself. */
  lemma {:induction false} LightOverCalls(lights: seq<Light>, calls: seq<Call>, location: Word)
    requires Undisturbed(calls, location) && FirstAt(lights, location) < |lights|
    ensures var r := AfterCalls(lights, calls);
            && FirstAt(r, location) < |r|
            && r[FirstAt(r, location)] == After(lights[FirstAt(lights, location)], Ticks(calls))
  {
    hide Effect, Ticked;
    if calls != [] {
      var init := calls[..|calls| - 1];
      LightOverCalls(lights, init, location);
      StaysNewest(AfterCalls(lights, init), calls[|calls| - 1], location);
    }
  }

  /** After an add of this light and then these calls, it is listed, and on exactly when its cycle says so. */
  ghost predicate OnInCycle(lights: seq<Light>, l: Light, calls: seq<Call>)
    requires Undisturbed(calls, l.location) && l.location != 0
  {
    var r := AfterCalls(Effect(lights, AddCall(l)), calls);
    && Cycle(l) > 0 && FirstAt(r, l.location) < |r|
    && (r[FirstAt(r, l.location)].status == 1 <==> Ticks(calls) % Cycle(l) < l.onLength)
  }

  /**
   * A light that add takes in blinks in its cycle through every run of calls that leaves its location alone, whatever
   * they do to other lights and in whatever order with the ticks, exactly when both its lengths are from 1 to 32768.
   */
  lemma BlinksThroughCalls(lights: seq<Light>, l: Light)
    requires |lights| < POOL && 0 != l.location < POOL
    ensures (forall calls :: Undisturbed(calls, l.location) ==> OnInCycle(lights, l, calls))
            <==> Countable(l.onLength) && Countable(l.offLength)
  {
    hide Effect, AfterCalls, FirstAt, After;
    if Countable(l.onLength) && Countable(l.offLength) {
      forall calls | Undisturbed(calls, l.location) ensures OnInCycle(lights, l, calls) {
        AddedOverCalls(lights, l, calls);
        CyclePhase(l, Ticks(calls));
      }
    } else if Cycle(l) > 0 {
      var n := FirstLapse(l);
      var calls := seq(n, _ => TickCall);
      OnlyTicks(n);
      AddedOverCalls(lights, l, calls);
      assert Undisturbed(calls, l.location) && !OnInCycle(lights, l, calls);
    } else {
      assert Undisturbed([], l.location) && !OnInCycle(lights, l, []);
    }
  }

  lemma AddedOverCalls(lights: seq<Light>, l: Light, calls: seq<Call>)
    requires |lights| < POOL && 0 != l.location < POOL && Undisturbed(calls, l.location)
    ensures var r := AfterCalls(Effect(lights, AddCall(l)), calls);
            && FirstAt(r, l.location) < |r| && r[FirstAt(r, l.location)] == After(Lit(l), Ticks(calls))
  {
    FirstAtIs([Lit(l)] + lights, l.location, 0);
    LightOverCalls([Lit(l)] + lights, calls, l.location);
  }

  lemma {:induction false} OnlyTicks(n: nat)
    ensures Ticks(seq(n, _ => TickCall)) == n
  {
    if n > 0 {
      OnlyTicks(n - 1);
      assert seq(n, _ => TickCall)[..n - 1] == seq(n - 1, _ => TickCall);
    }
  }

  /** Two lights that have been synced stay in step through every run of calls that leaves both locations alone. */
  lemma SyncedThroughCalls(lights: seq<Light>, arg: nat, calls: seq<Call>)
    requires arg < 0x1_0000_0000
    requires FirstAt(lights, arg / 0x1_0000) < |lights| && FirstAt(lights, arg % 0x1_0000) < |lights|
    requires Undisturbed(calls, arg / 0x1_0000) && Undisturbed(calls, arg % 0x1_0000)
    ensures var r := AfterCalls(Effect(lights, SyncCall(arg)), calls);
            var i, j := FirstAt(r, arg / 0x1_0000), FirstAt(r, arg % 0x1_0000);
            i < |r| && j < |r| && InStep(r[i], r[j])
  {
    hide AfterCalls, Ticked, Ticks;
    var i, j := FirstAt(lights, arg / 0x1_0000), FirstAt(lights, arg % 0x1_0000);
    var synced := Effect(lights, SyncCall(arg));
    FirstAtIs(synced, arg / 0x1_0000, i);
    FirstAtIs(synced, arg % 0x1_0000, j);
    LightOverCalls(synced, calls, arg / 0x1_0000);
    LightOverCalls(synced, calls, arg % 0x1_0000);
    StayInStep(synced[i], synced[j], Ticks(calls));
  }

  // ---- The screen shows the lights ----

  /** No two lights share a location. */
  ghost predicate Apart(lights: seq<Light>) {
    forall i, j :: 0 <= i < j < |lights| ==> lights[i].location != lights[j].location
  }

  /** Every light's cell shows it as it is, lit or unlit. */
  ghost predicate Shown(page: seq<Byte>, lights: seq<Light>)
    requires |page| == PAGE && InPlace(lights)
  {
    forall i :: 0 <= i < |lights| ==> page[CellOf(lights[i])] == Face(lights[i])
  }

  /** The call adds no second light to a location. */
  predicate Spreads(lights: seq<Light>, call: Call) {
    call.AddCall? ==> FirstAt(lights, call.l.location) == |lights|
  }

  /** The call does not sync to a lit light one that looks different lit and unlit. */
  predicate SyncsUnlit(lights: seq<Light>, call: Call)
    requires Proper(call)
  {
    call.SyncCall? ==>
      var i, j := FirstAt(lights, call.arg / 0x1_0000), FirstAt(lights, call.arg % 0x1_0000);
      i < |lights| && j < |lights| && lights[i].status % 2 == 1 ==> lights[j].onChar == lights[j].offChar
  }

  lemma StayApart(lights: seq<Light>, call: Call)
    requires Proper(call) && Apart(lights) && Spreads(lights, call)
    ensures Apart(Effect(lights, call))
  {
    hide Ticked;
    TicksInPlace(lights);
  }

  /** The screen goes on showing the lights as they are, whatever the call, exactly unless it syncs to a lit light. */
  lemma CallShows(page: seq<Byte>, lights: seq<Light>, call: Call)
    requires |page| == PAGE && InPlace(lights) && Apart(lights) && Shown(page, lights)
    requires Proper(call) && Spreads(lights, call)
    ensures InPlace(Effect(lights, call))
    ensures Shown(Painted(page, lights, call), Effect(lights, call)) <==> SyncsUnlit(lights, call)
  {
    StayInPlace(lights, call);
    match call
    case AddCall(l) =>
    case RemoveCall(_) =>
    case SyncCall(arg) => SyncShows(page, lights, arg);
    case TickCall => TickShows(page, lights);
  }

  lemma SyncShows(page: seq<Byte>, lights: seq<Light>, arg: nat)
    requires |page| == PAGE && InPlace(lights) && Apart(lights) && Shown(page, lights) && Proper(SyncCall(arg))
    requires InPlace(Effect(lights, SyncCall(arg)))
    ensures Shown(Painted(page, lights, SyncCall(arg)), Effect(lights, SyncCall(arg))) <==>
              SyncsUnlit(lights, SyncCall(arg))
  {
    var i, j := FirstAt(lights, arg / 0x1_0000), FirstAt(lights, arg % 0x1_0000);
    var p, r := Painted(page, lights, SyncCall(arg)), Effect(lights, SyncCall(arg));
    if i < |lights| && j < |lights| {
      forall n | 0 <= n < |r| && n != j ensures p[CellOf(r[n])] == Face(r[n]) {
        assert r[n] == lights[n] && CellOf(lights[n]) != CellOf(lights[j]);
      }
      assert r[j] == Synced(lights[i], lights[j]) && CellOf(r[j]) == CellOf(lights[j]);
      assert p[CellOf(r[j])] == lights[j].offChar;
    }
  }

  /** Two lights just added, the second synced to the first: lit, it is drawn unlit. */
  lemma SyncMisdraws(page: seq<Byte>)
    requires |page| == PAGE
    ensures var lights := [Lit(Light(2, 0x2A, 0x2E, 15, 15, 0, 0)), Lit(Light(1, 0x2A, 0x2E, 7, 7, 0, 0))];
            var call := SyncCall(0x2_0001);
            InPlace(lights) && InPlace(Effect(lights, call))
              && !Shown(Painted(page, lights, call), Effect(lights, call))
  {
    var lights := [Lit(Light(2, 0x2A, 0x2E, 15, 15, 0, 0)), Lit(Light(1, 0x2A, 0x2E, 7, 7, 0, 0))];
    var call := SyncCall(0x2_0001);
    FirstAtIs(lights, 2, 0);
    FirstAtIs(lights, 1, 1);
    assert Effect(lights, call)[1].location == 1 && Painted(page, lights, call)[2] == 0x2E;
  }

  lemma {:induction false} TickShows(page: seq<Byte>, lights: seq<Light>)
    requires |page| == PAGE && InPlace(lights) && Apart(lights) && Shown(page, lights)
    ensures InPlace(AllTicked(lights)) && Shown(Redrawn(page, lights), AllTicked(lights))
    ensures forall at :: 0 <= at < PAGE && (forall i :: 0 <= i < |lights| ==> CellOf(lights[i]) != at) ==>
              Redrawn(page, lights)[at] == page[at]
  {
    TicksInPlace(lights);
    if lights != [] {
      var init, l := lights[..|lights| - 1], lights[|lights| - 1];
      TickShows(page, init);
      TickedFace(l);
      forall i | 0 <= i < |lights|
        ensures Redrawn(page, lights)[CellOf(AllTicked(lights)[i])] == Face(AllTicked(lights)[i])
      {
        if i < |init| {
          assert init[i] == lights[i] && AllTicked(init)[i] == AllTicked(lights)[i];
          assert CellOf(lights[i]) != CellOf(l);
        }
      }
    }
  }

  /** A light that a tick does not toggle looks as before. */
  lemma TickedFace(l: Light)
    ensures Ticked(l).location == l.location && (!Lapses(l) ==> Face(Ticked(l)) == Face(l))
  {
  }

  /** None of the calls, when it comes, adds a second light to a location or syncs to a lit light. */
  ghost predicate Orderly(lights: seq<Light>, calls: seq<Call>) {
    && (forall i :: 0 <= i < |calls| ==> Proper(calls[i]))
    && (forall i :: 0 <= i < |calls| ==>
          Spreads(AfterCalls(lights, calls[..i]), calls[i]) && SyncsUnlit(AfterCalls(lights, calls[..i]), calls[i]))
  }

  /** Through every such run the screen shows all the lights as they are. */
  lemma {:induction false} CallsShow(page: seq<Byte>, lights: seq<Light>, calls: seq<Call>)
    requires |page| == PAGE && InPlace(lights) && Apart(lights) && Shown(page, lights) && Orderly(lights, calls)
    ensures var t := Tank(page, lights, calls); Apart(t.1) && Shown(t.0, t.1)
  {
    hide Effect, Painted, Spreads, SyncsUnlit, Apart, Shown, InPlace;
    if calls != [] {
      var init, last := calls[..|calls| - 1], calls[|calls| - 1];
      assert forall i :: 0 <= i < |init| ==> init[..i] == calls[..i] && init[i] == calls[i];
      CallsShow(page, lights, init);
      var t := Tank(page, lights, init);
      StayApart(t.1, last);
      CallShows(t.0, t.1, last);
    }
  }

  // ---- The text screen ----

  /** The page as the picture of 25 rows of 80 characters that it is. */
  function Picture(page: seq<Byte>): V.Screen {
    V.Screen(page, 0, 0)
  }

  /** A light drawn at location 80 * row + column changes the character there, and nothing else at all. */
  lemma DrawnInItsPlace(page: seq<Byte>, l: Light, c: Byte, row: nat, column: nat)
    requires |page| == PAGE && row < 25 && column < 80 && l.location == 80 * row + column
    ensures V.OnlyCell(Picture(page), Picture(page[CellOf(l) := c]), row, column, c)
    ensures forall k :: 0 <= k < PAGE && (k % 2 == 1 || k >= 4000) ==> page[CellOf(l) := c][k] == page[k]
  {
  }

  lemma {:induction false} AfterFirstCall(lights: seq<Light>, first: Call, calls: seq<Call>)
    requires Proper(first) && forall i :: 0 <= i < |calls| ==> Proper(calls[i])
    ensures AfterCalls(lights, [first] + calls) == AfterCalls(Effect(lights, first), calls)
  {
    hide Effect;
    if calls == [] {
      assert AfterCalls(lights, []) == lights;
      assert ([first] + [])[..0] == [] && ([first] + [])[0] == first;
    } else {
      var init := calls[..|calls| - 1];
      AfterFirstCall(lights, first, init);
      assert ([first] + calls)[..|calls|] == [first] + init;
    }
  }

  /**
   * From its adding on, through every run that leaves its location alone and does not disturb the picture, the
   * character at a light's row and column is the lit one in the first part of each of its cycles, else the unlit one.
   */
  lemma {:induction false} BlinksOnScreen(page: seq<Byte>, lights: seq<Light>, l: Light, calls: seq<Call>, row: nat,
                                         column: nat)
    requires |page| == PAGE && InPlace(lights) && Apart(lights) && Shown(page, lights) && |lights| < POOL
    requires row < 25 && column < 80 && l.location == 80 * row + column != 0
    requires Countable(l.onLength) && Countable(l.offLength)
    requires Undisturbed(calls, l.location) && Orderly(lights, [AddCall(l)] + calls)
    ensures V.Shown(Picture(Tank(page, lights, [AddCall(l)] + calls).0), row, column)
            == if Ticks(calls) % Cycle(l) < l.onLength then l.onChar else l.offChar
  {
    hide Effect, AfterCalls, FirstAt, After, Painted, Tank, Orderly, Apart, Ticks, Cycle, Countable, Face, CellOf,
         Picture;
    var t := Tank(page, lights, [AddCall(l)] + calls);
    CallsShow(page, lights, [AddCall(l)] + calls);
    AfterFirstCall(lights, AddCall(l), calls);
    AddedOverCalls(lights, l, calls);
    FaceInCycle(l, Ticks(calls));
    InPicture(t.0, t.1[FirstAt(t.1, l.location)], row, column);
  }

  lemma FaceInCycle(l: Light, n: nat)
    requires Countable(l.onLength) && Countable(l.offLength)
    ensures Face(After(Lit(l), n)) == if n % Cycle(l) < l.onLength then l.onChar else l.offChar
    ensures After(Lit(l), n).location == l.location
  {
    hide After;
    CyclePhase(l, n);
  }

  lemma InPicture(page: seq<Byte>, l: Light, row: nat, column: nat)
    requires |page| == PAGE && row < 25 && column < 80 && l.location == 80 * row + column
    ensures CellOf(l) < PAGE && V.Shown(Picture(page), row, column) == page[CellOf(l)]
  {
  }

  // ---- A light at location 0 ----

  /** The pool after add has taken a light in: lines 131-160 of blink.S. */
  function AddedAt(pool: seq<Slot>, head: int, n: nat, l: Light): seq<Slot>
    requires n < |pool|
  {
    pool[n := Slot(Lit(l), head)]
  }

  /** Two lights at location 0 are given the same record, which then links to itself: the list has no end. */
  lemma TwoAtZeroLoop(pool: seq<Slot>, head: int, a: Light, b: Light)
    requires FreeRecord(pool, 0) < |pool| && a.location == 0 && b.location == 0
    ensures var n := FreeRecord(pool, 0);
            var p := AddedAt(pool, head, n, a);
            FreeRecord(p, 0) == n && AddedAt(p, n, n, b)[n].next == n && AddedAt(p, n, n, b)[n].light.location == 0
  {
    var n := FreeRecord(pool, 0);
    var p := AddedAt(pool, head, n, a);
    assert p[n].light.location == 0;
  }
}
