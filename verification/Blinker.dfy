// The fish program's blinking characters: the list code of fish/blink.S over the static pool of fish/fish.c.
module Blinker {
  import opened Bytes

  type Word = w: int | 0 <= w < 0x1_0000

  const POOL: nat := 2000
  const PAGE: nat := 4096
  const NULL := -1

  /** A 16-bit register read as signed, as jg does. */
  function Signed16(w: Word): int {
    if w < 0x8000 then w else w - 0x1_0000
  }

  datatype Light = Light(location: Word, onChar: Byte, offChar: Byte, onLength: Word, offLength: Word,
                         countdown: Word, status: Word)

  /** One record of the pool; a pointer to a record is its index. */
  datatype Slot = Slot(light: Light, next: int)

  const BLANK := Slot(Light(0, 0, 0, 0, 0, 0, 0), NULL)

  // ---- The list ----

  function Link(chain: seq<nat>, i: nat): int {
    if i < |chain| then chain[i] else NULL
  }

  /** Following next from head visits the records of chain in order, then ends. */
  ghost predicate Linked(pool: seq<Slot>, head: int, chain: seq<nat>) {
    && head == Link(chain, 0)
    && (forall i :: 0 <= i < |chain| ==> chain[i] < |pool| && pool[chain[i]].next == Link(chain, i + 1))
  }

  ghost predicate Distinct(chain: seq<nat>) {
    forall i, j :: 0 <= i < j < |chain| ==> chain[i] != chain[j]
  }

  /** The records on the list are exactly those with a location. */
  ghost predicate InUse(pool: seq<Slot>, chain: seq<nat>) {
    forall n :: 0 <= n < |pool| ==> (pool[n].light.location != 0 <==> n in chain)
  }

  /** No record lies off the screen, which has 2000 cells. */
  ghost predicate InRange(pool: seq<Slot>) {
    forall n :: 0 <= n < |pool| ==> pool[n].light.location < POOL
  }

  ghost predicate IsList(pool: seq<Slot>, head: int, chain: seq<nat>) {
    |pool| == POOL && Linked(pool, head, chain) && Distinct(chain) && InUse(pool, chain)
  }

  ghost function Lights(pool: seq<Slot>, chain: seq<nat>): (r: seq<Light>)
    requires forall i :: 0 <= i < |chain| ==> chain[i] < |pool|
    ensures |r| == |chain| && forall i :: 0 <= i < |chain| ==> r[i] == pool[chain[i]].light
  {
    seq(|chain|, i requires 0 <= i < |chain| => pool[chain[i]].light)
  }

  lemma {:induction false} SameLinks(pool: seq<Slot>, head: int, a: seq<nat>, b: seq<nat>, n: nat)
    requires Linked(pool, head, a) && Linked(pool, head, b) && n <= |a|
    ensures Link(a, n) == Link(b, n)
  {
    if n > 0 {
      SameLinks(pool, head, a, b, n - 1);
      assert Link(a, n - 1) == a[n - 1] && Link(b, n - 1) == b[n - 1];
    }
  }

  /** The head and the links leave no choice of chain. */
  lemma ChainIsUnique(pool: seq<Slot>, head: int, a: seq<nat>, b: seq<nat>)
    requires Linked(pool, head, a) && Linked(pool, head, b)
    ensures a == b
  {
    SameLinks(pool, head, a, b, |a|);
    SameLinks(pool, head, b, a, |b|);
    forall n: nat | n < |a| ensures a[n] == b[n] {
      SameLinks(pool, head, a, b, n);
      assert Link(a, n) == a[n];
    }
  }

  // ---- What the operations mean ----

  /** The place of the newest light at a location, or the number of lights. */
  function FirstAt(lights: seq<Light>, location: Word): (i: nat)
    ensures i <= |lights| && (i < |lights| ==> lights[i].location == location)
    ensures forall j :: 0 <= j < i ==> lights[j].location != location
  {
    if lights == [] || lights[0].location == location then 0 else 1 + FirstAt(lights[1..], location)
  }

  function Without(lights: seq<Light>, i: nat): seq<Light>
    requires i < |lights|
  {
    lights[..i] + lights[i + 1..]
  }

  /** A light as add starts it: on, with its whole on-time ahead. */
  function Lit(l: Light): Light {
    l.(status := 1, countdown := l.onLength)
  }

  function Synced(from: Light, to: Light): Light {
    to.(onLength := from.onLength, offLength := from.offLength, countdown := from.countdown, status := from.status)
  }

  function Toggled(status: Word): Word {
    if status % 2 == 1 then status - 1 else status + 1
  }

  /** One timer tick: count down in 16 bits, and at zero or below toggle and reload. */
  function Ticked(l: Light): Light {
    var left: Word := if l.countdown == 0 then 0xFFFF else l.countdown - 1;
    if Signed16(left) > 0 then l.(countdown := left)
    else l.(countdown := if l.status % 2 == 1 then l.offLength else l.onLength, status := Toggled(l.status))
  }

  function AllTicked(lights: seq<Light>): (r: seq<Light>)
    ensures |r| == |lights| && forall i :: 0 <= i < |lights| ==> r[i] == Ticked(lights[i])
  {
    seq(|lights|, i requires 0 <= i < |lights| => Ticked(lights[i]))
  }

  // ---- Free records ----

  /** The record malloc finds: the first without a location, from record n on. */
  function FreeRecord(pool: seq<Slot>, n: nat): (r: nat)
    requires n <= |pool|
    ensures n <= r <= |pool| && (r < |pool| ==> pool[r].light.location == 0)
    ensures forall i :: n <= i < r ==> pool[i].light.location != 0
    decreases |pool| - n
  {
    if n == |pool| || pool[n].light.location == 0 then n else FreeRecord(pool, n + 1)
  }

  // ---- What is drawn ----

  /** Every light has a cell on the screen. */
  predicate InPlace(lights: seq<Light>) {
    forall i :: 0 <= i < |lights| ==> lights[i].location < POOL
  }

  /** The byte of the screen where a light is drawn. */
  function CellOf(l: Light): nat {
    2 * l.location
  }

  /** What a light should look like. */
  function Face(l: Light): Byte {
    if l.status % 2 == 1 then l.onChar else l.offChar
  }

  /** The next tick toggles the light. */
  predicate Lapses(l: Light) {
    Signed16(if l.countdown == 0 then 0xFFFF else l.countdown - 1) <= 0
  }

  /** The screen after a tick: the lights it toggles are drawn, from the newest to the oldest. */
  function Redrawn(page: seq<Byte>, lights: seq<Light>): (r: seq<Byte>)
    requires |page| == PAGE && InPlace(lights)
    ensures |r| == PAGE
  {
    if lights == [] then page
    else
      var l := lights[|lights| - 1];
      var before := Redrawn(page, lights[..|lights| - 1]);
      if Lapses(l) then before[CellOf(l) := Face(Ticked(l))] else before
  }

  lemma NothingDrawn(page: seq<Byte>)
    requires |page| == PAGE
    ensures Redrawn(page, []) == page
  {
  }

  lemma OneMoreDrawn(page: seq<Byte>, lights: seq<Light>, i: nat)
    requires |page| == PAGE && InPlace(lights) && i < |lights|
    ensures lights[i].location < POOL && Ticked(lights[i]).location == lights[i].location
    ensures InPlace(lights[..i]) && InPlace(lights[..i + 1])
    ensures var before := Redrawn(page, lights[..i]);
            Redrawn(page, lights[..i + 1])
            == if Lapses(lights[i]) then before[CellOf(lights[i]) := Face(Ticked(lights[i]))] else before
  {
    assert lights[..i + 1][..i] == lights[..i];
  }

  lemma TicksInPlace(lights: seq<Light>)
    ensures forall i :: 0 <= i < |lights| ==> AllTicked(lights)[i].location == lights[i].location
  {
  }

  /** Removing at the location of the light added last gives the list from before it. */
  lemma RemoveUndoesAdd(lights: seq<Light>, l: Light)
    ensures FirstAt([Lit(l)] + lights, l.location) == 0 && Without([Lit(l)] + lights, 0) == lights
  {
  }

  // ---- Each change to the pool, on values ----

  lemma AddKeepsList(pool: seq<Slot>, head: int, chain: seq<nat>, n: nat, l: Light)
    requires IsList(pool, head, chain) && n < POOL && pool[n].light.location == 0 && l.location != 0
    ensures IsList(pool[n := Slot(l, head)], n, [n] + chain)
    ensures Lights(pool[n := Slot(l, head)], [n] + chain) == [l] + Lights(pool, chain)
  {
    AddLinks(pool, head, chain, n, l);
    AddedInUse(pool, head, chain, n, l);
    assert forall i :: 0 <= i < |chain| ==> chain[i] in chain;
    AddedLights(pool, chain, n, l, pool[n := Slot(l, head)], [n] + chain);
  }

  lemma AddedInUse(pool: seq<Slot>, head: int, chain: seq<nat>, n: nat, l: Light)
    requires InUse(pool, chain) && n < |pool| && l.location != 0
    ensures InUse(pool[n := Slot(l, head)], [n] + chain)
  {
    assert forall m :: m in [n] + chain <==> m == n || m in chain;
  }

  lemma AddedLights(pool: seq<Slot>, chain: seq<nat>, n: nat, l: Light, p: seq<Slot>, c: seq<nat>)
    requires n < |pool| == |p| && p[n].light == l && forall m :: 0 <= m < |p| && m != n ==> p[m].light == pool[m].light
    requires forall i :: 0 <= i < |chain| ==> chain[i] < |pool| && chain[i] != n
    requires |c| == |chain| + 1 && c[0] == n && forall i :: 1 <= i < |c| ==> c[i] == chain[i - 1]
    ensures Lights(p, c) == [l] + Lights(pool, chain)
  {
    var before, after := Lights(pool, chain), Lights(p, c);
    assert forall i :: 1 <= i < |after| ==> after[i] == before[i - 1];
  }

  lemma AddLinks(pool: seq<Slot>, head: int, chain: seq<nat>, n: nat, l: Light)
    requires Linked(pool, head, chain) && Distinct(chain) && n < |pool| && n !in chain
    ensures Linked(pool[n := Slot(l, head)], n, [n] + chain) && Distinct([n] + chain)
  {
    var p, c := pool[n := Slot(l, head)], [n] + chain;
    forall i | 0 <= i < |c| ensures c[i] < |p| && p[c[i]].next == Link(c, i + 1) && (i > 0 ==> c[i] != n) {
      assert i > 0 ==> c[i] == chain[i - 1] && chain[i - 1] in chain && Link(c, i + 1) == Link(chain, i);
    }
  }

  /** A light at location 0 leaves its record looking free: no chain is the list in use any more. */
  lemma AddAtZeroBreaksList(pool: seq<Slot>, head: int, n: nat, l: Light, chain: seq<nat>)
    requires |pool| == POOL && n < POOL && l.location == 0
    ensures !IsList(pool[n := Slot(l, head)], n, chain)
  {
  }

  /** The pool with place i of the chain cut out, and the record there blanked. */
  function Unlinked(pool: seq<Slot>, chain: seq<nat>, i: nat): seq<Slot>
    requires i < |chain| && forall j :: 0 <= j < |chain| ==> chain[j] < |pool|
  {
    var p := if i == 0 then pool else pool[chain[i - 1] := pool[chain[i - 1]].(next := pool[chain[i]].next)];
    p[chain[i] := BLANK]
  }

  function Cutout(chain: seq<nat>, i: nat): (c: seq<nat>)
    requires i < |chain|
    ensures |c| == |chain| - 1 && forall j :: 0 <= j < |c| ==> c[j] == chain[if j < i then j else j + 1]
  {
    chain[..i] + chain[i + 1..]
  }

  lemma RemoveKeepsList(pool: seq<Slot>, head: int, chain: seq<nat>, i: nat)
    requires IsList(pool, head, chain) && i < |chain|
    ensures var c := Cutout(chain, i);
            && IsList(Unlinked(pool, chain, i), Link(c, 0), c)
            && Lights(Unlinked(pool, chain, i), c) == Without(Lights(pool, chain), i)
  {
    hide Unlinked, InUse;
    RemoveLinks(pool, head, chain, i);
    RemovedInUse(pool, chain, i);
    RemovedLights(pool, chain, i);
  }

  lemma RemovedInUse(pool: seq<Slot>, chain: seq<nat>, i: nat)
    requires InUse(pool, chain) && Distinct(chain) && i < |chain| && forall j :: 0 <= j < |chain| ==> chain[j] < |pool|
    ensures InUse(Unlinked(pool, chain, i), Cutout(chain, i))
  {
    hide Unlinked;
    CutoutHolds(chain, i);
    UnlinkedLights(pool, chain, i);
  }

  lemma RemovedLights(pool: seq<Slot>, chain: seq<nat>, i: nat)
    requires Distinct(chain) && i < |chain| && forall j :: 0 <= j < |chain| ==> chain[j] < |pool|
    ensures |Unlinked(pool, chain, i)| == |pool|
    ensures Lights(Unlinked(pool, chain, i), Cutout(chain, i)) == Without(Lights(pool, chain), i)
  {
    hide Unlinked;
    UnlinkedLights(pool, chain, i);
    CutoutHolds(chain, i);
    assert forall j :: 0 <= j < |Cutout(chain, i)| ==> Cutout(chain, i)[j] in Cutout(chain, i);
  }

  lemma UnlinkedLights(pool: seq<Slot>, chain: seq<nat>, i: nat)
    requires i < |chain| && forall j :: 0 <= j < |chain| ==> chain[j] < |pool|
    ensures |Unlinked(pool, chain, i)| == |pool|
    ensures forall n :: 0 <= n < |pool| && n != chain[i] ==> Unlinked(pool, chain, i)[n].light == pool[n].light
    ensures Unlinked(pool, chain, i)[chain[i]].light.location == 0
  {
  }

  lemma UnlinkedInRange(pool: seq<Slot>, chain: seq<nat>, i: nat)
    requires InRange(pool) && i < |chain| && forall j :: 0 <= j < |chain| ==> chain[j] < |pool|
    ensures InRange(Unlinked(pool, chain, i))
  {
  }

  lemma CutoutHolds(chain: seq<nat>, i: nat)
    requires i < |chain| && Distinct(chain)
    ensures forall n :: n in Cutout(chain, i) <==> n in chain && n != chain[i]
  {
    var c := Cutout(chain, i);
    forall n | n in chain && n != chain[i] ensures n in c {
      var j :| 0 <= j < |chain| && chain[j] == n;
      assert c[if j < i then j else j - 1] == n;
    }
  }

  lemma RemoveLinks(pool: seq<Slot>, head: int, chain: seq<nat>, i: nat)
    requires Linked(pool, head, chain) && Distinct(chain) && i < |chain|
    ensures Linked(Unlinked(pool, chain, i), Link(Cutout(chain, i), 0), Cutout(chain, i)) && Distinct(Cutout(chain, i))
  {
    var p, c := Unlinked(pool, chain, i), Cutout(chain, i);
    forall j | 0 <= j < |c| ensures c[j] < |p| && p[c[j]].next == Link(c, j + 1) {
      var k := if j < i then j else j + 1;
      assert c[j] == chain[k] && pool[chain[k]].next == Link(chain, k + 1);
    }
  }

  /** Changing lights but not where they are or how they are linked. */
  lemma SameLinksKeepList(pool: seq<Slot>, head: int, chain: seq<nat>, p: seq<Slot>)
    requires IsList(pool, head, chain) && |p| == POOL
    requires forall n :: 0 <= n < POOL ==> p[n].next == pool[n].next && p[n].light.location == pool[n].light.location
    ensures IsList(p, head, chain) && (InRange(pool) ==> InRange(p))
  {
  }

  // ---- A full pool ----

  ghost function Elements(chain: seq<nat>): (r: set<nat>)
    ensures forall n :: n in r <==> n in chain
  {
    if chain == [] then {} else Elements(chain[1..]) + {chain[0]}
  }

  function Below(k: nat): (r: set<nat>)
    ensures |r| == k && forall n: nat :: n in r <==> n < k
  {
    if k == 0 then {} else Below(k - 1) + {k - 1}
  }

  lemma {:induction false} DistinctCount(chain: seq<nat>)
    requires Distinct(chain)
    ensures |Elements(chain)| == |chain|
  {
    if chain != [] {
      DistinctCount(chain[1..]);
      assert chain[0] !in Elements(chain[1..]);
    }
  }

  lemma {:induction false} PartCount(a: set<nat>, b: set<nat>)
    requires a <= b
    ensures |a| <= |b| && (|a| == |b| <==> a == b)
  {
    if a != {} {
      var x :| x in a;
      PartCount(a - {x}, b - {x});
      assert a == a - {x} + {x} && b == b - {x} + {x};
    } else if b != {} {
      var x :| x in b;
      assert b == b - {x} + {x};
    }
  }

  /** There is a free record exactly when fewer than 2000 lights are on the list. */
  lemma PoolIsFull(pool: seq<Slot>, head: int, chain: seq<nat>)
    requires IsList(pool, head, chain)
    ensures |chain| <= POOL
    ensures (forall n :: 0 <= n < POOL ==> pool[n].light.location != 0) <==> |chain| == POOL
  {
    DistinctCount(chain);
    forall n | n in Elements(chain) ensures n in Below(|pool|) {
      assert n in chain;
    }
    PartCount(Elements(chain), Below(|pool|));
    FullMeansAll(pool, chain);
  }

  lemma FullMeansAll(pool: seq<Slot>, chain: seq<nat>)
    requires InUse(pool, chain) && Elements(chain) <= Below(|pool|)
    ensures (forall n :: 0 <= n < |pool| ==> pool[n].light.location != 0) <==> Elements(chain) == Below(|pool|)
  {
    if forall n :: 0 <= n < |pool| ==> pool[n].light.location != 0 {
      forall n: nat | n in Below(|pool|) ensures n in Elements(chain) {
        assert pool[n].light.location != 0;
      }
    } else {
      var n: nat :| n < |pool| && pool[n].light.location == 0;
      assert n in Below(|pool|) && n !in Elements(chain);
    }
  }

  // ---- The code ----

  class Blinker {
    const pool: array<Slot>
    const screen: array<Byte> // the page vidmap maps
    var head: int
    ghost var chain: seq<nat>

    ghost predicate Valid()
      reads this, pool
    {
      IsList(pool[..], head, chain) && InRange(pool[..]) && screen.Length == PAGE
    }

    /** The lights on the list, newest first. */
    ghost function Shining(): seq<Light>
      requires Valid()
      reads this, pool
      ensures InPlace(Shining())
    {
      Lights(pool[..], chain)
    }

    constructor (screen: array<Byte>)
      requires screen.Length == PAGE
      ensures Valid() && Shining() == [] && fresh(pool) && this.screen == screen
    {
      this.screen := screen;
      pool := new Slot[2000](_ => BLANK);
      head := NULL;
      chain := [];
    }

    /** mp1_poke. */
    method Poke(at: nat, c: Byte)
      requires at < screen.Length
      modifies screen
      ensures screen[..] == old(screen[..])[at := c]
    {
      screen[at] := c;
    }

    method Malloc() returns (n: int)
      requires pool.Length == POOL
      ensures n == NULL || (0 <= n < POOL && pool[n].light.location == 0)
      ensures n == NULL <==> forall i :: 0 <= i < POOL ==> pool[i].light.location != 0
      ensures n == if FreeRecord(pool[..], 0) < POOL then FreeRecord(pool[..], 0) else NULL
    {
      for i := 0 to POOL
        invariant forall j :: 0 <= j < i ==> pool[j].light.location != 0
        invariant FreeRecord(pool[..], 0) == FreeRecord(pool[..], i)
      {
        if pool[i].light.location == 0 {
          return i;
        }
      }
      return NULL;
    }

    /** mp1_find_helper: the first record on the list with this location, or NULL. */
    method FindHelper(location: Word) returns (n: int, ghost i: nat)
      requires Valid()
      ensures i == FirstAt(Shining(), location) && n == Link(chain, FirstAt(Shining(), location))
      ensures n != NULL ==> 0 <= n < pool.Length && i < |chain|
    {
      n, i := head, 0;
      while n != NULL
        invariant i <= |chain| && n == Link(chain, i)
        invariant forall j :: 0 <= j < i ==> Shining()[j].location != location
        decreases |chain| - i
      {
        if pool[n].light.location == location {
          FirstAtIs(Shining(), location, i);
          return;
        }
        n, i := pool[n].next, i + 1;
      }
      FirstAtIs(Shining(), location, i);
    }

    /** mp1_ioctl_add: the light is listed and drawn lit. One at location 0 is, but its record still counts as free. */
    method Add(l: Light) returns (r: int)
      requires Valid()
      modifies this, pool, screen
      ensures r == if l.location < POOL && |old(Shining())| < POOL then 0 else -1
      ensures screen[..] == if r == 0 then old(screen[..])[CellOf(l) := l.onChar] else old(screen[..])
      ensures r == 0 && l.location != 0 ==> Valid() && Shining() == [Lit(l)] + old(Shining())
      ensures r == 0 ==> FreeRecord(old(pool[..]), 0) == head < POOL
                         && pool[..] == old(pool[..])[head := Slot(Lit(l), old(head))]
      ensures r == 0 && l.location == 0 ==> forall c :: !IsList(pool[..], head, c)
      ensures r == -1 ==> pool[..] == old(pool[..]) && head == old(head) && chain == old(chain)
    {
      PoolIsFull(pool[..], head, chain);
      if l.location >= 80 * 25 {
        return -1;
      }
      var temp := l.(status := 1);
      temp := temp.(countdown := temp.onLength);
      var n := Malloc();
      if n == NULL {
        return -1;
      }
      ghost var before := pool[..];
      AddedLight(before, head, chain, n, temp);
      pool[n] := Slot(temp, head);
      assert pool[..] == before[n := Slot(temp, head)];
      head, chain := n, [n] + chain;
      Poke(2 * pool[n].light.location, pool[n].light.onChar);
      return 0;
    }

    /** mp1_ioctl_remove: find the record, find the pointer to it, make that point past it, and free it. */
    method Remove(location: Word) returns (r: int)
      requires Valid()
      modifies this, pool
      ensures Valid()
      ensures var lights := old(Shining());
              var i := FirstAt(lights, location);
              if i < |lights| then r == 0 && Shining() == Without(lights, i)
              else r == -1 && pool[..] == old(pool[..]) && head == old(head) && chain == old(chain)
    {
      hide InRange, Unlinked, InUse;
      var n, i := FindHelper(location);
      if n == NULL {
        return -1;
      }
      UnlinkedInRange(pool[..], chain, i);
      var prev := FindPrevious(n, i);
      RemoveKeepsList(pool[..], head, chain, i);
      Unlink(n, prev, i);
      chain := Cutout(chain, i);
      return 0;
    }

    /** Making the pointer found lead past the record, and freeing the record. */
    method Unlink(n: nat, prev: int, ghost i: nat)
      requires Valid() && i < |chain| && n == chain[i] && prev == if i == 0 then NULL else chain[i - 1]
      modifies this`head, pool
      ensures pool[..] == Unlinked(old(pool[..]), chain, i) && head == Link(Cutout(chain, i), 0)
    {
      if prev == NULL {
        head := pool[n].next;
      } else {
        pool[prev] := pool[prev].(next := pool[n].next);
      }
      pool[n] := BLANK;
    }

    /** The record whose next pointer leads to n, or NULL when it is the head that does. */
    method FindPrevious(n: nat, ghost i: nat) returns (prev: int)
      requires Valid() && i < |chain| && n == chain[i]
      ensures prev == if i == 0 then NULL else chain[i - 1]
    {
      prev := NULL;
      var next := head;
      ghost var j := 0;
      while next != n
        invariant 0 <= j <= i && next == chain[j] && prev == if j == 0 then NULL else chain[j - 1]
        decreases i - j
      {
        prev, next := next, pool[next].next;
        j := j + 1;
      }
    }

    /**
     * mp1_ioctl_sync: the high half of arg names the light to copy the timing from, the low half the one to copy it to.
     * That one is drawn unlit in any case: after testb the cmovl that would take the other character never moves.
     */
    method Sync(arg: nat) returns (r: int)
      requires Valid() && arg < 0x1_0000_0000
      modifies pool, screen
      ensures Valid()
      ensures var lights := old(Shining());
              var j := FirstAt(lights, arg % 0x1_0000);
              screen[..] == if r == 0 && j < |lights| then old(screen[..])[CellOf(lights[j]) := lights[j].offChar]
                            else old(screen[..])
      ensures var lights := old(Shining());
              var i, j := FirstAt(lights, arg / 0x1_0000), FirstAt(lights, arg % 0x1_0000);
              if i < |lights| && j < |lights| then r == 0 && Shining() == lights[j := Synced(lights[i], lights[j])]
              else r == -1 && pool[..] == old(pool[..])
    {
      hide InRange, InUse, Linked, Distinct;
      var from, i := FindHelper(arg / 0x1_0000);
      if from == NULL {
        return -1;
      }
      var to, j := FindHelper(arg % 0x1_0000);
      if to == NULL {
        return -1;
      }
      CopyTiming(from, to, i, j);
      Poke(2 * pool[to].light.location, pool[to].light.offChar);
      return 0;
    }

    /** The copying of mp1_ioctl_sync. */
    method CopyTiming(from: nat, to: nat, ghost i: nat, ghost j: nat)
      requires Valid() && i < |chain| && j < |chain| && from == chain[i] && to == chain[j]
      modifies pool
      ensures Valid()
      ensures Shining() == old(Shining())[j := Synced(old(Shining())[i], old(Shining())[j])]
      ensures to < pool.Length && pool[to].light == Shining()[j]
    {
      hide InRange, InUse, InPlace;
      ghost var before, lights := pool[..], Shining();
      var source, l := pool[from].light, pool[to].light;
      l := l.(onLength := source.onLength);
      l := l.(offLength := source.offLength);
      l := l.(countdown := source.countdown);
      l := l.(status := source.status);
      pool[to] := pool[to].(light := l);
      SameLinksKeepList(before, head, chain, pool[..]);
      assert Shining() == lights[j := Synced(lights[i], lights[j])];
    }

    /** mp1_ioctl_find. */
    method Find(location: Word) returns (r: int, found: Light)
      requires Valid()
      ensures var i := FirstAt(Shining(), location);
              if i < |Shining()| then r == 0 && found == Shining()[i] else r == -1
    {
      found := BLANK.light;
      var n, i := FindHelper(location);
      if n == NULL {
        return -1, found;
      }
      return 0, pool[n].light;
    }

    /** mp1_rtc_tasklet: every light on the list lives through one tick, and those that toggle are drawn anew. */
    method Tasklet()
      requires Valid()
      modifies pool, screen
      ensures Valid() && Shining() == AllTicked(old(Shining()))
      ensures screen[..] == Redrawn(old(screen[..]), old(Shining()))
    {
      hide InRange, InUse, CellOf, Ticked, Redrawn, Lapses, Face;
      ghost var before, lights := pool[..], Shining();
      var n := head;
      ghost var i := 0;
      NothingDrawn(screen[..]);
      while n != NULL
        invariant i <= |chain| && n == Link(chain, i)
        invariant forall m :: 0 <= m < POOL ==>
                    pool[m].next == before[m].next && pool[m].light.location == before[m].light.location
        invariant forall j :: 0 <= j < |chain|
                    ==> pool[chain[j]].light == if j < i then Ticked(lights[j]) else lights[j]
        invariant screen[..] == Redrawn(old(screen[..]), lights[..i])
        decreases |chain| - i
      {
        OneMoreDrawn(old(screen[..]), lights, i);
        assert pool[chain[i]].light == lights[i];
        var l := TickOne(pool[n].light);
        pool[n] := pool[n].(light := l);
        n, i := pool[n].next, i + 1;
      }
      assert lights[..i] == lights;
      TicksInPlace(lights);
      SameLinksKeepList(before, head, chain, pool[..]);
    }

    /** One light's turn in the tasklet. */
    method TickOne(light: Light) returns (l: Light)
      requires screen.Length == PAGE && light.location < POOL
      modifies screen
      ensures l == Ticked(light)
      ensures screen[..] == if Lapses(light) then old(screen[..])[CellOf(light) := Face(l)] else old(screen[..])
    {
      l := light.(countdown := if light.countdown == 0 then 0xFFFF else light.countdown - 1);
      if Signed16(l.countdown) <= 0 {
        if l.status % 2 == 1 {
          Poke(2 * l.location, l.offChar);
          l := l.(countdown := l.offLength);
        } else {
          Poke(2 * l.location, l.onChar);
          l := l.(countdown := l.onLength);
        }
        l := l.(status := Toggled(l.status));
      }
    }
  }

  lemma {:induction false} FirstAtIs(lights: seq<Light>, location: Word, i: nat)
    requires i <= |lights| && (i < |lights| ==> lights[i].location == location)
    requires forall j :: 0 <= j < i ==> lights[j].location != location
    ensures FirstAt(lights, location) == i
  {
  }

  lemma AddedLight(pool: seq<Slot>, head: int, chain: seq<nat>, n: nat, l: Light)
    requires IsList(pool, head, chain) && n < POOL && pool[n].light.location == 0
    ensures var p := pool[n := Slot(l, head)];
            if l.location == 0 then forall c :: !IsList(p, n, c)
            else IsList(p, n, [n] + chain) && Lights(p, [n] + chain) == [l] + Lights(pool, chain)
  {
    var p := pool[n := Slot(l, head)];
    if l.location == 0 {
      forall c ensures !IsList(p, n, c) {
        AddAtZeroBreaksList(pool, head, n, l, c);
      }
    } else {
      AddKeepsList(pool, head, chain, n, l);
    }
  }
}
