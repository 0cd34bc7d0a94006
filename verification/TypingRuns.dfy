// Any run of keystrokes at three terminals, seen by the programs that read the lines.
module TypingRuns {
  import opened Bytes
  import opened LineEditing
  import K = Keyboard

  /** The keyboard's buffers hold the lines of the desk. */
  ghost predicate Shows(b: K.Keyboard, d: Desk)
    reads b, b.Memory()
  {
    b.Valid() && Tidy(d) && b.keys == d.keys && b.Lines(d.front) == d.lines
  }

  /** One keystroke, with the terminal switch it may ask for. */
  method Strike(b: K.Keyboard, front: nat, code: Byte, ghost d: Desk) returns (next: nat)
    requires Shows(b, d) && front == d.front && code != ENTER
    modifies b, b.Memory()
    ensures Shows(b, Typed(d, code)) && next == Typed(d, code).front
  {
    NextTidy(d, Key(code));
    hide Edited, Released, Pressed;
    assert d.lines[front] == b.Lines(front)[front] == b.FrontLine();
    var switch, echo := b.Press(code);
    assert b.Lines(front) == d.lines[front := b.FrontLine()];
    next := front;
    if switch.Some? && switch.value != front {
      b.SwitchBuffers(front, switch.value);
      next := switch.value;
    } else if switch.Some? {
      next := switch.value;
    }
  }

  /** Enter, and the read that waits for it. */
  method EnterAndRead(b: K.Keyboard, front: nat, nbytes: int, ghost d: Desk) returns (line: seq<Byte>)
    requires Shows(b, d) && front == d.front
    modifies b, b.Memory()
    ensures Shows(b, Next(d, Return(nbytes))) && line == Delivered(d.lines[front], nbytes)
  {
    hide Edited;
    assert d.lines[front] == b.Lines(front)[front] == b.FrontLine();
    var echo := b.Enter(front);
    FirstLineWhole(d.lines[front]);
    var buffer := new Byte[128];
    var n := b.TerminalRead(front, buffer, nbytes);
    line := buffer[..n];
    assert b.Lines(front) == d.lines[front := []];
  }

  /** Whatever is typed and wherever, every read delivers the ideal line of its terminal, cut to its size. */
  method Work(b: K.Keyboard, start: nat, strokes: seq<Stroke>, ghost d: Desk)
    returns (front: nat, lines: seq<seq<Byte>>)
    requires Shows(b, d) && start == d.front && forall i :: 0 <= i < |strokes| ==> Proper(strokes[i])
    modifies b, b.Memory()
    ensures Shows(b, Worked(d, strokes)) && front == Worked(d, strokes).front
    ensures lines == Read(d, strokes)
  {
    front, lines := start, [];
    for i := 0 to |strokes|
      invariant Shows(b, Worked(d, strokes[..i])) && front == Worked(d, strokes[..i]).front
      invariant lines == Read(d, strokes[..i])
    {
      ghost var now := Worked(d, strokes[..i]);
      assert strokes[..i + 1][..i] == strokes[..i];
      match strokes[i]
      case Key(code) =>
        front := Strike(b, front, code, now);
      case Return(nbytes) =>
        var line := EnterAndRead(b, front, nbytes, now);
        lines := lines + [line];
    }
    assert strokes[..|strokes|] == strokes;
  }
}
