// Any interleaving of prints and display switches: three independent consoles.
module ConsoleRuns {
  import opened Bytes
  import opened Screen
  import S = Screens

  datatype Call = Print(tid: nat, bytes: seq<Byte>) | Show(tid: nat)

  /** What one call means for terminal t, displayed or not: only its own prints count. */
  function Effect(s: Screen, call: Call, t: nat): (r: Screen)
    requires OnScreen(s)
    ensures OnScreen(r)
  {
    if call.Print? && call.tid == t then Written(s, NUL, call.bytes) else s
  }

  /** Terminal t's console after the calls, had it been the only console there is. */
  function Alone(s: Screen, calls: seq<Call>, t: nat): (r: Screen)
    requires OnScreen(s)
    ensures OnScreen(r)
  {
    if calls == [] then s else Effect(Alone(s, calls[..|calls| - 1], t), calls[|calls| - 1], t)
  }

  method Replay(c: S.Screens, calls: seq<Call>)
    requires c.Valid() && forall i :: 0 <= i < |calls| ==> calls[i].tid < 3
    modifies c, c.Memory()
    ensures c.Valid()
    ensures forall t :: 0 <= t < 3 ==> c.Console(t) == Alone(old(c.Console(t)), calls, t)
  {
    for i := 0 to |calls|
      invariant c.Valid()
      invariant forall t :: 0 <= t < 3 ==> OnScreen(old(c.Console(t)))
      invariant forall t :: 0 <= t < 3 ==> c.Console(t) == Alone(old(c.Console(t)), calls[..i], t)
    {
      assert calls[..i + 1][..i] == calls[..i];
      match calls[i]
      case Print(t, bytes) =>
        var r := c.TerminalWrite(t, bytes, |bytes|);
        assert bytes[..r] == bytes;
      case Show(t) =>
        if t != c.curDisplayTid {
          c.SwitchScreen(t);
        }
    }
    assert calls[..|calls|] == calls;
  }

  function Own(calls: seq<Call>, t: nat): seq<Call> {
    if calls == [] then []
    else
      var last := calls[|calls| - 1];
      Own(calls[..|calls| - 1], t) + if last.Print? && last.tid == t then [last] else []
  }

  /** When a terminal is displayed, and what the others print, makes no difference to it. */
  lemma {:induction false} OnlyOwnPrintsCount(s: Screen, calls: seq<Call>, t: nat)
    requires OnScreen(s)
    ensures Alone(s, calls, t) == Alone(s, Own(calls, t), t)
  {
    if calls != [] {
      var init, last := calls[..|calls| - 1], calls[|calls| - 1];
      OnlyOwnPrintsCount(s, init, t);
      if last.Print? && last.tid == t {
        assert (Own(init, t) + [last])[..|Own(init, t)|] == Own(init, t);
      } else {
        assert Own(init, t) + [] == Own(init, t);
      }
    }
  }
}
