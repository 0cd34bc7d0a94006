// terminal_switch of student-distrib/terminal.c, and the keyboard interrupt that asks for it.
module Terminals {
  import opened Bytes
  import opened ProcessStacks
  import opened KernelTables
  import opened Kernel
  import opened LineEditing
  import opened Screen
  import opened Typewriters
  import K = Keyboard
  import S = Screens

  /** The kernel's tables, the screens and the keyboard buffers are separate objects. */
  ghost predicate Apart(k: Kernel, b: K.Keyboard) {
    && k.Tables() !! b.Memory() && k.Tables() !! k.screens.Memory() && k.screens.Memory() !! b.Memory()
    && k.screens !in b.Memory() && b !in k.screens.Memory()
  }

  /** Everything the display shows and the keyboard types is in order, with the same terminal in front. */
  ghost predicate Devices(k: Kernel, b: K.Keyboard)
    reads k, k.processArray, k.pcbArray, k.terminals, k.screens, k.screens.Memory(), b, b.Memory()
  {
    && Apart(k, b) && k.Valid() && k.screens.Valid() && b.Valid()
    && 0 <= k.screens.curDisplayTid == k.sys.displayed < TERMINALS
  }

  /** A program is running, as one is from the first timer tick on. */
  ghost predicate Started(s: System) {
    s.running < |s.consoles| && s.consoles[s.running].stack != []
  }

  ghost predicate Ready(k: Kernel, b: K.Keyboard)
    reads k, k.processArray, k.pcbArray, k.terminals, k.screens, k.screens.Memory(), b, b.Memory()
  {
    Devices(k, b) && Started(k.sys)
  }

  /** Swaps what the screen shows and what the keyboard types into. */
  method SwitchDevices(screens: S.Screens, b: K.Keyboard, n: nat)
    requires screens.Valid() && b.Valid() && n < TERMINALS && n != screens.curDisplayTid
    requires screens.Memory() !! b.Memory() && screens !in b.Memory() && b !in screens.Memory()
    modifies screens, screens.Memory(), b`bufferPosition, b.Memory()
    ensures screens.Valid() && b.Valid() && screens.curDisplayTid == n
    ensures forall t :: 0 <= t < TERMINALS ==> screens.Console(t) == old(screens.Console(t))
    ensures b.Lines(n) == old(b.Lines(screens.curDisplayTid))
    ensures b.savedKeyboardBuffer[..] == old(b.savedKeyboardBuffer[..]) && b.enterFlag[..] == old(b.enterFlag[..])
  {
    var from := screens.curDisplayTid;
    assert b.terminalBuffer[from] in b.Memory();
    b.SwitchBuffers(from, n);
    assert screens.Valid();
    assert forall t :: 0 <= t < TERMINALS ==> screens.Console(t) == old(screens.Console(t));
    label buffers:
    screens.SwitchScreen(n);
    assert forall t :: 0 <= t < TERMINALS ==> b.Line(t, n) == old@buffers(b.Line(t, n));
  }

  /** Points the running program's view of the screen at video memory or at its own terminal's buffer. */
  method Remap(k: Kernel, n: nat)
    requires k.Sizes() && n < TERMINALS
    requires 0 <= k.currPid < PROCESSES && 0 <= k.pcbArray[k.currPid].terminalNumber < TERMINALS
    modifies k`videoPage
    ensures k.videoPage == VideoEntry(if k.currPid == k.terminals[n].curPid then VIDEO
                                      else k.terminals[k.pcbArray[k.currPid].terminalNumber].vidBuf)
  {
    if k.currPid == k.terminals[n].curPid {
      k.VidRemapping(VIDEO);
    } else {
      k.VidRemapping(k.terminals[k.pcbArray[k.currPid].terminalNumber].vidBuf);
    }
  }

  /** terminal_switch to a terminal that is not in front, on the tables and devices. */
  method BringForward(k: Kernel, b: K.Keyboard, n: nat)
    requires Apart(k, b) && k.Sizes() && k.screens.Valid() && b.Valid() && n < TERMINALS && n != k.screens.curDisplayTid
    requires 0 <= k.currPid < PROCESSES && 0 <= k.pcbArray[k.currPid].terminalNumber < TERMINALS
    modifies k`videoPage, k.screens, k.screens.Memory(), b`bufferPosition, b.Memory()
    ensures k.screens.Valid() && b.Valid()
    ensures var q := old(k.View());
            k.View() == q.(displayed := n,
                           videoPage := VideoEntry(if q.currPid == q.terminals[n].curPid then VIDEO
                                                   else q.terminals[q.pcbs[q.currPid].terminalNumber].vidBuf))
    ensures forall t :: 0 <= t < TERMINALS ==> k.screens.Console(t) == old(k.screens.Console(t))
    ensures b.Lines(n) == old(b.Lines(k.screens.curDisplayTid))
    ensures b.savedKeyboardBuffer[..] == old(b.savedKeyboardBuffer[..]) && b.enterFlag[..] == old(b.enterFlag[..])
  {
    SwitchDevices(k.screens, b, n);
    assert k.processArray[..] == old(k.processArray[..]) && k.pcbArray[..] == old(k.pcbArray[..]);
    assert k.terminals[..] == old(k.terminals[..]);
    Remap(k, n);
  }

  method ShowOther(k: Kernel, b: K.Keyboard, n: nat)
    requires Ready(k, b) && n < TERMINALS && n != k.screens.curDisplayTid
    modifies k`sys, k`videoPage, k.screens, k.screens.Memory(), b`bufferPosition, b.Memory()
    ensures k.Valid() && k.screens.Valid() && b.Valid() && k.screens.curDisplayTid == n
    ensures k.sys == old(k.sys).(displayed := n)
    ensures forall t :: 0 <= t < TERMINALS ==> k.screens.Console(t) == old(k.screens.Console(t))
    ensures b.Lines(n) == old(b.Lines(k.screens.curDisplayTid))
    ensures b.savedKeyboardBuffer[..] == old(b.savedKeyboardBuffer[..]) && b.enterFlag[..] == old(b.enterFlag[..])
  {
    hide Represents, Ok;
    ghost var before, s := k.View(), k.sys;
    ShownIsOwn(before, s, n);
    BringForward(k, b, n);
    DisplayRepresents(before, s, n, k.View());
    k.sys := s.(displayed := n);
  }

  /**
   * Bringing terminal n to the front: no terminal's screen or line changes, the running program's view of the screen
   * follows, and nothing else in the process tables does.
   */
  method TerminalSwitch(k: Kernel, b: K.Keyboard, n: int) returns (r: int)
    requires Ready(k, b)
    modifies k`sys, k`videoPage, k.screens, k.screens.Memory(), b`bufferPosition, b.Memory()
    ensures Ready(k, b)
    ensures r == if 0 <= n < TERMINALS then 0 else -1
    ensures k.sys == if r == 0 then old(k.sys).(displayed := n) else old(k.sys)
    ensures forall t :: 0 <= t < TERMINALS ==> k.screens.Console(t) == old(k.screens.Console(t))
    ensures b.Lines(k.screens.curDisplayTid) == old(b.Lines(k.screens.curDisplayTid))
    ensures b.savedKeyboardBuffer[..] == old(b.savedKeyboardBuffer[..]) && b.enterFlag[..] == old(b.enterFlag[..])
  {
    hide Represents, Ok;
    if n < 0 || n > 2 {
      return -1;
    }
    if n == k.screens.curDisplayTid {
      assert k.sys.(displayed := n) == k.sys;
      return 0;
    }
    ShowOther(k, b, n);
    r := 0;
  }

  /** The three lines being typed, the terminal in front and the modifier keys. */
  ghost function DeskOf(k: Kernel, b: K.Keyboard): (d: Desk)
    requires Devices(k, b)
    reads k, k.processArray, k.pcbArray, k.terminals, k.screens, k.screens.Memory(), b, b.Memory()
    ensures |d.lines| == 3 && d.front < 3 && forall t :: 0 <= t < 3 ==> |d.lines[t]| <= LINE
  {
    Desk(b.Lines(k.screens.curDisplayTid), k.screens.curDisplayTid, b.keys)
  }

  /** The same with the saved line, the flags of those who wait for one, and the count of bytes past a full line. */
  ghost function TypewriterOf(k: Kernel, b: K.Keyboard): (w: Typewriter)
    requires Devices(k, b)
    reads k, k.processArray, k.pcbArray, k.terminals, k.screens, k.screens.Memory(), b, b.Memory()
    ensures InOrder(w)
  {
    Typewriter(DeskOf(k, b), b.savedKeyboardBuffer[..b.savedBufferPosition], b.enterFlag[..], b.overflowBits)
  }

  /** The screen after an echo. */
  function Echoed(s: Screen, echo: Echo): (r: Screen)
    requires OnScreen(s)
  {
    match echo
    case Silent => s
    case Prints(before, c) => Put(s, before, c)
    case ClearsScreen => Cleared(s)
  }

  /** An echo takes the cursor off the screen exactly when it rubs out a tab at columns 1 to 3 of the top row. */
  lemma EchoLeavesScreen(s: Screen, echo: Echo)
    requires OnScreen(s)
    ensures !OnScreen(Echoed(s, echo)) <==> echo == Prints(TAB, BACKSPACE) && 0 < s.x < 4 && s.y == 0
  {
    hide Put;
    if echo.Prints? {
      LeavesScreen(s, echo.before, echo.c);
    }
  }

  /** It can come to that: type a tab, press Ctrl+L, let a program print one letter, and press backspace. */
  lemma EchoAfterClearing(s: Screen, w: Typewriter)
    requires OnScreen(s) && InOrder(w) && w.desk.lines[w.desk.front] == [TAB]
    ensures var printed := Written(Cleared(s), NUL, [0x61]);
            OnScreen(printed) && !OnScreen(Echoed(printed, EchoGiven(w, 14)))
  {
    hide Letter;
    OnlyEnterTypesNewline(false, false, 14);
    var printed := Put(Cleared(s), NUL, 0x61);
    assert Written(Cleared(s), NUL, [0x61]) == Written(printed, 0x61, []) == printed;
    EchoLeavesScreen(printed, EchoGiven(w, 14));
  }

  method Draw(screens: S.Screens, echo: Echo)
    requires screens.Valid() && OnScreen(Echoed(screens.Console(screens.curDisplayTid), echo))
    modifies screens`screenX, screens`screenY, screens.video
    ensures screens.Valid() && old(OnScreen(screens.Front())) && screens.Front() == Echoed(old(screens.Front()), echo)
    ensures forall t :: 0 <= t < 3 && t != screens.curDisplayTid ==> screens.Console(t) == old(screens.Console(t))
  {
    hide Put, Cleared;
    assert OnScreen(screens.Console(screens.curDisplayTid));
    match echo {
      case Silent =>
      case Prints(before, c) => screens.SpecialPutc(before, c);
      case ClearsScreen => screens.ClearScreen();
    }
    assert forall t :: 0 <= t < 3 && t != screens.curDisplayTid ==> screens.Console(t) == old(screens.Console(t));
    assert forall t :: 0 <= t < 3 ==> old(OnScreen(screens.Console(t)));
  }

  /** The console of terminal t after a keystroke: the one in front takes the echo. */
  function AfterKey(s: Screen, t: nat, w: Typewriter, code: Byte): Screen
    requires OnScreen(s) && w.desk.front < |w.desk.lines| && |w.desk.lines[w.desk.front]| <= LINE
  {
    if t == w.desk.front then Echoed(s, EchoGiven(w, code)) else s
  }

  /**
   * The keyboard interrupt: the typewriter changes as one keystroke changes it, and the console in front shows the
   * echo, unless that would take the cursor off the screen, where the code goes on writing.
   */
  method KeyboardHandler(k: Kernel, b: K.Keyboard, code: Byte)
    requires Ready(k, b)
    requires var w := TypewriterOf(k, b); OnScreen(AfterKey(k.screens.Console(w.desk.front), w.desk.front, w, code))
    modifies k`sys, k`videoPage, k.screens, k.screens.Memory(), b, b.Memory()
    ensures Ready(k, b) && TypewriterOf(k, b) == Acted(old(TypewriterOf(k, b)), Press(code))
    ensures k.sys == old(k.sys).(displayed := DeskOf(k, b).front)
    ensures forall t :: 0 <= t < TERMINALS ==> old(OnScreen(k.screens.Console(t)))
    ensures forall t :: 0 <= t < TERMINALS ==>
              k.screens.Console(t) == AfterKey(old(k.screens.Console(t)), t, old(TypewriterOf(k, b)), code)
  {
    hide Represents, Ok, Echoed, Acted, EchoGiven, OnScreen;
    if code == ENTER {
      ghost var w := TypewriterOf(k, b);
      EnterStrikes(w.desk);
      ActsOnDesk(w, ENTER);
      var echo := PressEnter(k, b);
      DrawInFront(k, b, echo);
      assert k.sys == k.sys.(displayed := k.screens.curDisplayTid);
    } else {
      PressOther(k, b, code);
    }
  }

  lemma ActsOnDesk(w: Typewriter, code: Byte)
    requires InOrder(w)
    ensures Acted(w, Press(code)).desk == Struck(w.desk, code)
  {
  }

  method PressOther(k: Kernel, b: K.Keyboard, code: Byte)
    requires Ready(k, b) && code != ENTER
    requires var w := TypewriterOf(k, b); OnScreen(AfterKey(k.screens.Console(w.desk.front), w.desk.front, w, code))
    modifies k`sys, k`videoPage, k.screens, k.screens.Memory(), b, b.Memory()
    ensures Ready(k, b) && TypewriterOf(k, b) == Acted(old(TypewriterOf(k, b)), Press(code))
    ensures k.sys == old(k.sys).(displayed := DeskOf(k, b).front)
    ensures forall t :: 0 <= t < TERMINALS ==> old(OnScreen(k.screens.Console(t)))
    ensures forall t :: 0 <= t < TERMINALS ==>
              k.screens.Console(t) == AfterKey(old(k.screens.Console(t)), t, old(TypewriterOf(k, b)), code)
  {
    hide Represents, Ok, Echoed, Acted, EchoGiven, OnScreen, Typed;
    ghost var w := TypewriterOf(k, b);
    ActsOnDesk(w, code);
    var switch, echo := PressKey(k, b, code);
    DrawInFront(k, b, echo);
    SwitchIfAsked(k, b, switch);
    assert TypewriterOf(k, b).desk == Typed(w.desk, code);
  }

  /** The terminal switch a key may have asked for. */
  method SwitchIfAsked(k: Kernel, b: K.Keyboard, switch: Option<nat>)
    requires Ready(k, b) && (switch.Some? ==> switch.value < TERMINALS)
    modifies k`sys, k`videoPage, k.screens, k.screens.Memory(), b, b.Memory()
    ensures Ready(k, b)
    ensures var w := old(TypewriterOf(k, b));
            TypewriterOf(k, b) == w.(desk := w.desk.(front := switch.GetOr(w.desk.front)))
    ensures k.sys == old(k.sys).(displayed := DeskOf(k, b).front)
    ensures forall t :: 0 <= t < TERMINALS ==> k.screens.Console(t) == old(k.screens.Console(t))
  {
    hide Represents, Ok, OnScreen;
    if switch.Some? {
      var r := TerminalSwitch(k, b, switch.value);
    }
    assert k.sys == old(k.sys).(displayed := k.screens.curDisplayTid);
  }

  /** The echo goes to video memory, and nothing but the console in front changes. */
  method DrawInFront(k: Kernel, b: K.Keyboard, echo: Echo)
    requires Ready(k, b) && OnScreen(Echoed(k.screens.Console(k.screens.curDisplayTid), echo))
    modifies k.screens`screenX, k.screens`screenY, k.screens.video
    ensures Ready(k, b) && TypewriterOf(k, b) == old(TypewriterOf(k, b))
    ensures forall t :: 0 <= t < TERMINALS ==> old(OnScreen(k.screens.Console(t)))
    ensures forall t :: 0 <= t < TERMINALS ==>
              k.screens.Console(t) == if t == k.screens.curDisplayTid then Echoed(old(k.screens.Console(t)), echo)
                                      else old(k.screens.Console(t))
  {
    hide Represents, Ok, Echoed;
    assert k.screens.video in k.screens.Memory();
    Draw(k.screens, echo);
  }

  method PressEnter(k: Kernel, b: K.Keyboard) returns (echo: Echo)
    requires Ready(k, b)
    modifies b`bufferPosition, b`savedBufferPosition, b`overflowBits, b.Memory()
    ensures Ready(k, b) && TypewriterOf(k, b) == Acted(old(TypewriterOf(k, b)), Press(ENTER))
    ensures echo == EchoGiven(old(TypewriterOf(k, b)), ENTER)
  {
    hide Represents, Ok, Edited, Letter;
    ghost var d := DeskOf(k, b);
    EnterStrikes(d);
    OnlyEnterTypesNewline(false, false, ENTER as int);
    OnlyEnterTypesNewline(b.keys.caps, b.keys.shift, ENTER as int);
    echo := b.Enter(k.screens.curDisplayTid);
    assert b.Lines(d.front) == d.lines[d.front := b.FrontLine()];
  }

  /** The keyboard interrupt for a key other than Enter, up to the terminal switch it may ask for. */
  method PressKey(k: Kernel, b: K.Keyboard, code: Byte) returns (switch: Option<nat>, echo: Echo)
    requires Ready(k, b) && code != ENTER
    modifies b`keys, b`bufferPosition, b`overflowBits, b.keyboardBuffer
    ensures Ready(k, b) && (switch.Some? ==> switch.value < TERMINALS)
    ensures var w := old(TypewriterOf(k, b));
            && echo == EchoGiven(w, code) && Typed(w.desk, code).front == switch.GetOr(w.desk.front)
            && TypewriterOf(k, b) == Acted(w, Press(code)).(desk := Typed(w.desk, code).(front := w.desk.front))
  {
    hide Represents, Ok, Edited, Released, Pressed, Letter;
    ghost var d := DeskOf(k, b);
    assert b.keyboardBuffer in b.Memory();
    switch, echo := b.Press(code);
    assert b.Lines(d.front) == d.lines[d.front := b.FrontLine()];
  }

  // ---- terminal_write ----

  /** What a write to standard output does to terminal t's console: it prints if t is the writer's terminal. */
  function Wrote(screen: Screen, t: nat, writer: nat, buffer: Option<seq<Byte>>, nbytes: int): (r: Screen)
    requires OnScreen(screen) && (buffer.Some? ==> nbytes <= |buffer.value|)
    ensures OnScreen(r)
  {
    if buffer.Some? && nbytes > 0 && t == writer then Written(screen, NUL, buffer.value[..nbytes]) else screen
  }

  /** The running program prints on its own terminal's console, and on no other, whichever terminal is displayed. */
  method WriteStdout(k: Kernel, b: K.Keyboard, buffer: Option<seq<Byte>>, nbytes: int) returns (r: int)
    requires Devices(k, b) && Booted(k.sys) && (buffer.Some? ==> nbytes <= |buffer.value|)
    modifies k.screens`screenX, k.screens`screenY, k.screens.Memory()
    ensures Devices(k, b) && TypewriterOf(k, b) == old(TypewriterOf(k, b))
    ensures r == if buffer.None? then -1 else if nbytes < 0 then 0 else nbytes
    ensures forall t :: 0 <= t < TERMINALS ==> old(OnScreen(k.screens.Console(t)))
    ensures forall t :: 0 <= t < TERMINALS ==>
              k.screens.Console(t) == Wrote(old(k.screens.Console(t)), t, k.sys.running, buffer, nbytes)
  {
    hide AllRecorded, LiveRecorded, TerminalsRecorded, Current, ProcessOk, Distinct, BootOrder, Put;
    if buffer.None? {
      return -1;
    }
    Caller(k.View(), k.sys);
    r := k.screens.TerminalWrite(k.pcbArray[k.currPid].terminalNumber, buffer.value, nbytes);
  }

  // ---- terminal_read ----

  /** A turn of terminal_read: the running program waits for Enter at its own terminal, or takes the saved line. */
  method ReadStdin(k: Kernel, b: K.Keyboard, buffer: array<Byte>, nbytes: int) returns (r: Option<nat>)
    requires Devices(k, b) && Booted(k.sys) && (b.enterFlag[k.sys.running] ==> b.savedBufferPosition <= LINE)
    requires buffer !in b.Memory() && buffer !in k.Tables() && buffer !in k.screens.Memory()
    requires buffer.Length >= Min(Limit(nbytes), LINE + 1)
    modifies b`bufferPosition, b`savedBufferPosition, b.Memory(), buffer
    ensures Devices(k, b) && forall t :: 0 <= t < TERMINALS ==> k.screens.Console(t) == old(k.screens.Console(t))
    ensures var w, t := old(TypewriterOf(k, b)), k.sys.running;
            if w.entered[t] then
              && r.Some? && r.value <= buffer.Length && buffer[..r.value] == Handed(w, nbytes)
              && (nbytes >= 1 ==> r.value <= nbytes)
              && TypewriterOf(k, b) == Acted(w, Fetch(t, nbytes))
            else r.None? && TypewriterOf(k, b) == w
  {
    hide Represents, Ok, FirstLine, Delivered, Limit, OnScreen;
    Caller(k.View(), k.sys);
    r := b.ReadTurn(k.pcbArray[k.currPid].terminalNumber, buffer, nbytes);
  }
}
