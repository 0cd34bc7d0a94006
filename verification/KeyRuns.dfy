// What keys do over a whole run: which modifiers are held, which terminal is in front, and that a line being typed is
// the line that shows.
module KeyRuns {
  import opened Bytes
  import opened LineEditing
  import opened Typewriters
  import opened Terminals
  import V = Screen

  // ---- Modifiers ----

  /** Whether the last of these acts to be one of these presses or releases is a press; else what held before. */
  function Held(acts: seq<Act>, presses: set<Byte>, releases: set<Byte>, before: bool): bool {
    if acts == [] then before
    else
      var last := acts[|acts| - 1];
      if last.Press? && last.code in presses then true
      else if last.Press? && last.code in releases then false
      else Held(acts[..|acts| - 1], presses, releases, before)
  }

  lemma HeldOneMore(acts: seq<Act>, act: Act, presses: set<Byte>, releases: set<Byte>, before: bool)
    ensures Held(acts + [act], presses, releases, before)
            == Held([act], presses, releases, Held(acts, presses, releases, before))
  {
    assert (acts + [act])[..|acts|] == acts && [act][..0] == [];
  }

  /** How often this key has been pressed. */
  function Presses(acts: seq<Act>, code: Byte): nat {
    if acts == [] then 0
    else Presses(acts[..|acts| - 1], code) + if acts[|acts| - 1] == Press(code) then 1 else 0
  }

  /** What one act does to the modifiers. */
  lemma ActOnKeys(w: Typewriter, act: Act)
    requires InOrder(w) && CanAct(w, act)
    ensures var code := if act.Press? then act.code else NUL;
            Acted(w, act).desk.keys == if code < KEYS then Pressed(Released(w.desk.keys, code), code)
                                       else Released(w.desk.keys, code)
  {
    hide Edited;
    if act == Press(ENTER) {
      EnterStrikes(w.desk);
    }
  }

  lemma OneActHeld(m: Modifiers, act: Act)
    ensures var code := if act.Press? then act.code else NUL;
            var next := if code < KEYS then Pressed(Released(m, code), code) else Released(m, code);
            && next.shift == Held([act], {0x2A, 0x36}, {0xAA, 0xB6}, m.shift)
            && next.ctrl == Held([act], {0x1D}, {0x9D}, m.ctrl) && next.alt == Held([act], {0x38}, {0xB8}, m.alt)
            && next.caps == if act == Press(0x3A) then !m.caps else m.caps
  {
  }

  /**
   * Shift, Ctrl and Alt count exactly from the press of one of their keys to the next release of one, whatever else is
   * typed or read meanwhile, and Caps Lock changes with each press.
   */
  lemma {:induction false} ModifiersHeld(w: Typewriter, acts: seq<Act>)
    requires InOrder(w) && CanDo(w, acts)
    ensures var keys, now := w.desk.keys, ActedOut(w, acts).desk.keys;
            && now.shift == Held(acts, {0x2A, 0x36}, {0xAA, 0xB6}, keys.shift)
            && now.ctrl == Held(acts, {0x1D}, {0x9D}, keys.ctrl)
            && now.alt == Held(acts, {0x38}, {0xB8}, keys.alt)
            && now.caps == (keys.caps != (Presses(acts, 0x3A) % 2 == 1))
    decreases |acts|
  {
    hide Acted, CanAct, Released, Pressed, Held;
    if acts == [] {
      NothingHeld(w.desk.keys);
    } else {
      var init, last := acts[..|acts| - 1], acts[|acts| - 1];
      assert acts == init + [last];
      CanDoPrefix(w, init, last);
      ModifiersHeld(w, init);
      OneMoreAct(w, init, last);
      HeldOneMore(init, last, {0x2A, 0x36}, {0xAA, 0xB6}, w.desk.keys.shift);
      HeldOneMore(init, last, {0x1D}, {0x9D}, w.desk.keys.ctrl);
      HeldOneMore(init, last, {0x38}, {0xB8}, w.desk.keys.alt);
      ActOnKeys(ActedOut(w, init), last);
      OneActHeld(ActedOut(w, init).desk.keys, last);
    }
  }

  lemma NothingHeld(m: Modifiers)
    ensures Held([], {0x2A, 0x36}, {0xAA, 0xB6}, m.shift) == m.shift
    ensures Held([], {0x1D}, {0x9D}, m.ctrl) == m.ctrl && Held([], {0x38}, {0xB8}, m.alt) == m.alt
  {
  }

  /** The terminal brought to the front last: by F1, F2 or F3 with Alt held at that moment. */
  function BroughtToFront(acts: seq<Act>, alt: bool, before: nat): nat {
    if acts == [] then before
    else
      var init, last := acts[..|acts| - 1], acts[|acts| - 1];
      if last.Press? && 0x3B <= last.code <= 0x3D && Held(init, {0x38}, {0xB8}, alt) then last.code - 0x3B
      else BroughtToFront(init, alt, before)
  }

  lemma ActOnFront(w: Typewriter, act: Act)
    requires InOrder(w) && CanAct(w, act)
    ensures Acted(w, act).desk.front
            == if act.Press? && 0x3B <= act.code <= 0x3D && w.desk.keys.alt then act.code - 0x3B else w.desk.front
  {
    hide Edited;
    if act == Press(ENTER) {
      EnterStrikes(w.desk);
    }
  }

  lemma {:induction false} FrontIsBroughtLast(w: Typewriter, acts: seq<Act>)
    requires InOrder(w) && CanDo(w, acts)
    ensures ActedOut(w, acts).desk.front == BroughtToFront(acts, w.desk.keys.alt, w.desk.front)
    decreases |acts|
  {
    hide Acted, CanAct;
    if acts == [] {
      assert ActedOut(w, []) == w;
    } else {
      var init, last := acts[..|acts| - 1], acts[|acts| - 1];
      assert acts == init + [last];
      CanDoPrefix(w, init, last);
      FrontIsBroughtLast(w, init);
      ModifiersHeld(w, init);
      OneMoreAct(w, init, last);
      ActOnFront(ActedOut(w, init), last);
    }
  }

  // ---- What is typed is what shows ----

  /** From column x of row y on, up to the cursor, the screen shows the line being typed from its byte `from` on. */
  ghost predicate Mirrors(s: V.Screen, line: seq<Byte>, from: nat, x: nat, y: nat) {
    && V.OnScreen(s) && from <= |line| && s.x == x + |line| - from < 80 && s.y == y
    && forall j :: from <= j < |line| ==>
         line[j] !in {NEWLINE, RETURN, BACKSPACE, TAB} && V.Shown(s, y, x + j - from) == line[j]
  }

  /** A key that types here: it goes to the line in front, has room in the row, and neither clears nor tabs. */
  ghost predicate TypesInRow(w: Typewriter, code: Byte, from: nat, x: nat)
    requires InOrder(w)
  {
    && code != ENTER && SwitchTo(Released(w.desk.keys, code), code).None? && w.overflow == 0
    && !EchoGiven(w, code).ClearsScreen? && EchoGiven(w, code) != Prints(NUL, TAB)
    && EchoGiven(w, code) != Prints(NUL, RETURN)
    && var next := Acted(w, Press(code)).desk.lines[w.desk.front];
       from <= |next| < LINE && x + |next| - from < 79
  }

  /** Each such key, letter, sign or backspace, keeps the line as it will be read and the row of the screen the same. */
  lemma KeyIsMirrored(s: V.Screen, w: Typewriter, code: Byte, from: nat, x: nat, y: nat)
    requires InOrder(w) && Mirrors(s, w.desk.lines[w.desk.front], from, x, y) && TypesInRow(w, code, from, x)
    requires |w.desk.lines[w.desk.front]| < LINE
    ensures var r := Acted(w, Press(code));
            && r.desk.front == w.desk.front && r.overflow == 0
            && Mirrors(AfterKey(s, w.desk.front, w, code), r.desk.lines[r.desk.front], from, x, y)
  {
    hide Letter, Edited, Overflowed, V.Put;
    var line, keys := w.desk.lines[w.desk.front], Pressed(Released(w.desk.keys, code), code);
    if code < KEYS {
      TypesWhatItShows(line, 0, keys, code);
      EchoKeepsCount(line, 0, keys, code);
      OnlyEnterTypesNewline(keys.caps, keys.shift, code);
      OnlyEnterTypesNewline(false, false, code);
      var echo, next := EchoOf(line, 0, keys, code), Edited(line, keys, code);
      assert Acted(w, Press(code)).desk.lines[w.desk.front] == next;
      if echo.Prints? && echo.c != BACKSPACE {
        V.PrintingMoves(s, echo.before, echo.c);
        assert next == line + [echo.c];
      } else if echo.Prints? {
        assert line == next + [echo.before];
        assert line[|line| - 1] == echo.before;
        V.RubbingOutMoves(s, echo.before);
        assert AfterKey(s, w.desk.front, w, code) == V.Put(s, echo.before, BACKSPACE);
        forall j | from <= j < |next|
          ensures next[j] == line[j] && V.Shown(V.Put(s, echo.before, BACKSPACE), y, x + j - from) == next[j]
        {
          assert V.Shown(s, y, x + j - from) == line[j];
        }
      }
    }
  }

  /** All these acts are such keys, each when its turn has come. */
  ghost predicate TypeInRow(w: Typewriter, acts: seq<Act>, from: nat, x: nat)
    requires InOrder(w) && CanDo(w, acts)
    decreases |acts|
  {
    acts != [] ==>
      && acts[0].Press? && TypesInRow(w, acts[0].code, from, x)
      && TypeInRow(Acted(w, acts[0]), acts[1..], from, x)
  }

  /** The screen in front after the echoes of these keys. */
  ghost function EchoedOut(s: V.Screen, w: Typewriter, acts: seq<Act>, from: nat, x: nat, y: nat): (r: V.Screen)
    requires InOrder(w) && CanDo(w, acts) && TypeInRow(w, acts, from, x)
    requires |w.desk.lines[w.desk.front]| < LINE && Mirrors(s, w.desk.lines[w.desk.front], from, x, y)
    decreases |acts|
  {
    if acts == [] then s
    else
      KeyIsMirrored(s, w, acts[0].code, from, x, y);
      EchoedOut(AfterKey(s, w.desk.front, w, acts[0].code), Acted(w, acts[0]), acts[1..], from, x, y)
  }

  lemma {:induction false} LineIsMirrored(s: V.Screen, w: Typewriter, acts: seq<Act>, from: nat, x: nat, y: nat)
    requires InOrder(w) && CanDo(w, acts) && TypeInRow(w, acts, from, x)
    requires |w.desk.lines[w.desk.front]| < LINE && Mirrors(s, w.desk.lines[w.desk.front], from, x, y)
    ensures var r := ActedOut(w, acts);
            && r.desk.front == w.desk.front && |r.desk.lines[r.desk.front]| < LINE
            && Mirrors(EchoedOut(s, w, acts, from, x, y), r.desk.lines[r.desk.front], from, x, y)
    decreases |acts|
  {
    hide Acted, AfterKey, EchoGiven;
    if acts != [] {
      KeyIsMirrored(s, w, acts[0].code, from, x, y);
      LineIsMirrored(AfterKey(s, w.desk.front, w, acts[0].code), Acted(w, acts[0]), acts[1..], from, x, y);
    }
  }

  /**
   * What is typed on an empty line in a row with room for it, with any modifiers and backspaces, is what shows from the
   * cursor on, and what a read gets after Enter.
   */
  lemma WhatShowsIsRead(s: V.Screen, w: Typewriter, acts: seq<Act>)
    requires V.OnScreen(s) && s.x < 80 && InOrder(w) && w.desk.lines[w.desk.front] == []
    requires CanDo(w, acts) && TypeInRow(w, acts, 0, s.x)
    ensures Mirrors(s, [], 0, s.x, s.y)
    ensures var r, shown := ActedOut(w, acts), EchoedOut(s, w, acts, 0, s.x, s.y);
            var line := r.desk.lines[w.desk.front];
            && |shown.page| == 4096 && shown.x == s.x + |line| < 80 && shown.y == s.y < 25
            && (forall j :: 0 <= j < |line| ==> V.Shown(shown, s.y, s.x + j) == line[j])
            && Handed(Acted(r, Press(ENTER)), |line| + 1) == line + [NEWLINE]
  {
    hide Acted, TypeInRow, EchoedOut, ActedOut, FirstLine;
    LineIsMirrored(s, w, acts, 0, s.x, s.y);
    EntersLine(ActedOut(w, acts));
  }

  lemma EntersLine(w: Typewriter)
    requires InOrder(w)
    ensures var line := w.desk.lines[w.desk.front];
            NEWLINE !in line ==> Handed(Acted(w, Press(ENTER)), |line| + 1) == line + [NEWLINE]
  {
    hide FirstLine, Struck;
    FirstLineWhole(w.desk.lines[w.desk.front]);
  }
}
