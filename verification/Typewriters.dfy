// The keyboard as its readers see it: three lines being typed, one saved line shared by all terminals, and for each
// terminal whether Enter has been pressed there since its last read.
module Typewriters {
  import opened Bytes
  import opened LineEditing

  datatype Typewriter = Typewriter(desk: Desk, saved: seq<Byte>, entered: seq<bool>, overflow: int)

  ghost predicate InOrder(w: Typewriter) {
    && |w.desk.lines| == 3 && w.desk.front < 3 && |w.entered| == 3
    && forall t :: 0 <= t < 3 ==> |w.desk.lines[t]| <= LINE
  }

  /** A keystroke, or a read at terminal t that Enter has let through. */
  datatype Act = Press(code: Byte) | Fetch(t: nat, nbytes: int)

  ghost predicate CanAct(w: Typewriter, act: Act) {
    InOrder(w) && (act.Fetch? ==> act.t < 3 && w.entered[act.t])
  }

  /** What a keystroke does to the desk; Enter puts the line away and starts a new one, which holds the newline. */
  function Struck(d: Desk, code: Byte): Desk
    requires |d.lines| == 3 && d.front < 3 && |d.lines[d.front]| <= LINE
  {
    Typed(if code == ENTER then d.(lines := d.lines[d.front := []]) else d, code)
  }

  /** Enter leaves the line in front holding the newline alone, and everything else on the desk as it was. */
  lemma EnterStrikes(d: Desk)
    requires |d.lines| == 3 && d.front < 3 && |d.lines[d.front]| <= LINE
    ensures Struck(d, ENTER) == d.(lines := d.lines[d.front := [NEWLINE]])
  {
    hide Letter;
    OnlyEnterTypesNewline(false, false, ENTER as int);
    OnlyEnterTypesNewline(d.keys.caps, d.keys.shift, ENTER as int);
    assert Released(d.keys, ENTER) == d.keys == Pressed(d.keys, ENTER);
    assert Edited([], d.keys, ENTER as int) == [NEWLINE];
    assert d.lines[d.front := []][d.front := [NEWLINE]] == d.lines[d.front := [NEWLINE]];
  }

  /** The keystroke reaches the line in front: it is a key, and no switch of terminals. */
  predicate Types(w: Typewriter, code: Byte) {
    code < KEYS && SwitchTo(Released(w.desk.keys, code), code).None?
  }

  /** The count of echoed bytes that the line in front had no room for, after a key other than Enter. */
  function OverflowAfter(w: Typewriter, code: Byte): int
    requires w.desk.front < |w.desk.lines| && |w.desk.lines[w.desk.front]| <= LINE
  {
    if !Types(w, code) then w.overflow
    else Overflowed(w.desk.lines[w.desk.front], w.overflow, Pressed(Released(w.desk.keys, code), code), code)
  }

  /** What a keystroke does to the screen in front. */
  function EchoGiven(w: Typewriter, code: Byte): Echo
    requires w.desk.front < |w.desk.lines| && |w.desk.lines[w.desk.front]| <= LINE
  {
    if code == ENTER then Prints(NUL, NEWLINE)
    else if !Types(w, code) then Silent
    else EchoOf(w.desk.lines[w.desk.front], w.overflow, Pressed(Released(w.desk.keys, code), code), code)
  }

  /**
   * Enter saves the line in front for its reader; a read puts a newline behind the saved line, and blanks its own line
   * and the one in front.
   */
  ghost function Acted(w: Typewriter, act: Act): (r: Typewriter)
    requires CanAct(w, act)
    ensures InOrder(r)
  {
    match act
    case Press(code) =>
      if code == ENTER then
        Typewriter(Struck(w.desk, code), w.desk.lines[w.desk.front], w.entered[w.desk.front := true], 0)
      else w.(desk := Struck(w.desk, code), overflow := OverflowAfter(w, code))
    case Fetch(t, _) =>
      w.(desk := w.desk.(lines := w.desk.lines[w.desk.front := []][t := []]), saved := w.saved + [NEWLINE],
         entered := w.entered[t := false])
  }

  /** What a read delivers. */
  function Handed(w: Typewriter, nbytes: int): seq<Byte> {
    Delivered(FirstLine(w.saved), nbytes)
  }

  ghost predicate CanDo(w: Typewriter, acts: seq<Act>)
    requires InOrder(w)
    decreases |acts|
  {
    acts == [] || (CanAct(w, acts[0]) && CanDo(Acted(w, acts[0]), acts[1..]))
  }

  ghost function ActedOut(w: Typewriter, acts: seq<Act>): (r: Typewriter)
    requires InOrder(w) && CanDo(w, acts)
    ensures InOrder(r)
    decreases |acts|
  {
    if acts == [] then w else ActedOut(Acted(w, acts[0]), acts[1..])
  }

  lemma {:induction false} OneMoreAct(w: Typewriter, acts: seq<Act>, act: Act)
    requires InOrder(w) && CanDo(w, acts) && CanAct(ActedOut(w, acts), act)
    ensures CanDo(w, acts + [act]) && ActedOut(w, acts + [act]) == Acted(ActedOut(w, acts), act)
    decreases |acts|
  {
    hide CanAct, Acted, InOrder;
    if acts == [] {
      assert ([] + [act])[1..] == [];
    } else {
      OneMoreAct(Acted(w, acts[0]), acts[1..], act);
      assert (acts + [act])[1..] == acts[1..] + [act];
    }
  }

  // ---- Every Enter read before the next key ----

  /** Nobody waits for a line, and no line holds a newline. */
  ghost predicate NobodyWaits(w: Typewriter) {
    InOrder(w) && Tidy(w.desk) && forall t :: 0 <= t < 3 ==> !w.entered[t]
  }

  /** Enter has been pressed in front after this much was typed, and its line waits to be read. */
  ghost predicate Waiting(w: Typewriter, d: Desk) {
    && InOrder(w) && Tidy(d) && w.desk == d.(lines := d.lines[d.front := [NEWLINE]]) && w.saved == d.lines[d.front]
    && forall t :: 0 <= t < 3 ==> (w.entered[t] <==> t == d.front)
  }

  /** A scan code that types nothing and asks for no terminal, as when a key comes up or a modifier goes down. */
  predicate Idle(code: Byte) {
    code > 0x3D || code in {0x00, 0x01, 0x1D, 0x2A, 0x36, 0x38, 0x3A}
  }

  lemma IdleTypesNothing(line: seq<Byte>, m: Modifiers, code: Byte)
    requires Idle(code) && |line| <= LINE
    ensures SwitchTo(m, code).None? && code != ENTER && (code < KEYS ==> Edited(line, m, code) == line)
  {
  }

  /** Enter has been pressed, and since then nothing has been typed or read. */
  predicate Pending(acts: seq<Act>) {
    acts != [] &&
    var last := acts[|acts| - 1];
    last.Press? && (last.code == ENTER || (Idle(last.code) && Pending(acts[..|acts| - 1])))
  }

  /** Until the read that Enter lets through no key is struck that would type or switch. */
  predicate Orderly(acts: seq<Act>) {
    forall i :: 0 <= i < |acts| && Pending(acts[..i]) ==> acts[i].Fetch? || Idle(acts[i].code)
  }

  /** The same acts as an ideal desk knows them: keys, and Enter with its read. */
  function Strokes(acts: seq<Act>): (strokes: seq<Stroke>)
    ensures forall i :: 0 <= i < |strokes| ==> Proper(strokes[i])
  {
    if acts == [] then []
    else
      var last := acts[|acts| - 1];
      Strokes(acts[..|acts| - 1])
      + if last.Fetch? then [Return(last.nbytes)] else if last.code != ENTER then [Key(last.code)] else []
  }

  /** Between lines the typewriter is the ideal desk; after an Enter it holds the ideal line for its reader. */
  ghost predicate KeepsUp(w: Typewriter, acts: seq<Act>, d: Desk) {
    if Pending(acts) then Waiting(w, d) else NobodyWaits(w) && w.desk == d
  }

  lemma {:induction false} OrderlyIsIdeal(w: Typewriter, acts: seq<Act>)
    requires NobodyWaits(w) && CanDo(w, acts) && Orderly(acts)
    ensures KeepsUp(ActedOut(w, acts), acts, Worked(w.desk, Strokes(acts)))
    decreases |acts|
  {
    hide Letter, Typed, Tidy, Acted, CanDo, ActedOut;
    if acts == [] {
      StartsIdeal(w);
    } else {
      var init, last := acts[..|acts| - 1], acts[|acts| - 1];
      assert acts == init + [last] && acts[..|init|] == init;
      CanDoPrefix(w, init, last);
      assert forall i :: 0 <= i < |init| ==> init[..i] == acts[..i] && init[i] == acts[i];
      OrderlyIsIdeal(w, init);
      OneMoreAct(w, init, last);
      OneMoreStroke(w.desk, acts);
      NextAct(ActedOut(w, init), init, Worked(w.desk, Strokes(init)), last);
    }
  }

  lemma StartsIdeal(w: Typewriter)
    requires NobodyWaits(w)
    ensures CanDo(w, []) && ActedOut(w, []) == w && Worked(w.desk, Strokes([])) == w.desk
  {
  }

  lemma {:induction false} CanDoPrefix(w: Typewriter, acts: seq<Act>, act: Act)
    requires InOrder(w) && CanDo(w, acts + [act])
    ensures CanDo(w, acts) && CanAct(ActedOut(w, acts), act)
    decreases |acts|
  {
    hide CanAct, Acted, InOrder;
    if acts == [] {
      assert ([] + [act])[0] == act;
    } else {
      assert (acts + [act])[1..] == acts[1..] + [act];
      CanDoPrefix(Acted(w, acts[0]), acts[1..], act);
    }
  }

  lemma OneMoreStroke(d: Desk, acts: seq<Act>)
    requires Tidy(d) && acts != []
    ensures var init, last := acts[..|acts| - 1], acts[|acts| - 1];
            Worked(d, Strokes(acts)) ==
              if last == Press(ENTER) then Worked(d, Strokes(init))
              else Next(Worked(d, Strokes(init)), if last.Fetch? then Return(last.nbytes) else Key(last.code))
  {
    hide Next, Tidy;
    var init, last := acts[..|acts| - 1], acts[|acts| - 1];
    if last == Press(ENTER) {
      assert Strokes(acts) == Strokes(init);
    } else {
      var stroke := if last.Fetch? then Return(last.nbytes) else Key(last.code);
      assert Strokes(acts) == Strokes(init) + [stroke];
      assert (Strokes(init) + [stroke])[..|Strokes(init)|] == Strokes(init);
    }
  }

  /** One act more keeps typewriter and ideal desk together. */
  lemma NextAct(w: Typewriter, acts: seq<Act>, d: Desk, act: Act)
    requires KeepsUp(w, acts, d) && CanAct(w, act) && Tidy(d)
    requires Pending(acts) ==> act.Fetch? || Idle(act.code)
    ensures var next := if act == Press(ENTER) then d
                        else Next(d, if act.Fetch? then Return(act.nbytes) else Key(act.code));
            KeepsUp(Acted(w, act), acts + [act], next)
  {
    hide Letter, Edited;
    assert (acts + [act])[..|acts|] == acts;
    if act == Press(ENTER) {
      EnterStrikes(d);
    } else if act.Press? {
      NextTidy(d, Key(act.code));
      if Pending(acts) {
        IdleTypesNothing([NEWLINE], Pressed(Released(d.keys, act.code), act.code), act.code);
        IdleTypesNothing(d.lines[d.front], Pressed(Released(d.keys, act.code), act.code), act.code);
        IdleTypesNothing([], Released(d.keys, act.code), act.code);
      }
    } else {
      assert w.desk.lines[w.desk.front := []][act.t := []] == d.lines[d.front := []];
    }
  }

  /** So when Enter's turn has come, its reader gets the line an ideal desk has at its terminal, cut to its size. */
  lemma OrderlyReadIsIdeal(w: Typewriter, acts: seq<Act>, t: nat, nbytes: int)
    requires NobodyWaits(w) && CanDo(w, acts) && Orderly(acts) && CanAct(ActedOut(w, acts), Fetch(t, nbytes))
    ensures var d := Worked(w.desk, Strokes(acts));
            t == d.front < |d.lines| && Handed(ActedOut(w, acts), nbytes) == Delivered(d.lines[t], nbytes)
  {
    hide Letter, Typed, ActedOut, CanDo, Delivered;
    OrderlyIsIdeal(w, acts);
    FirstLineWhole(ActedOut(w, acts).saved);
  }

  // ---- Where readers do not get their lines ----

  /** The line in front at the last Enter of the acts, or the one given if there was none. */
  ghost function LastEntered(w: Typewriter, acts: seq<Act>, line: seq<Byte>): seq<Byte>
    requires InOrder(w) && CanDo(w, acts)
    decreases |acts|
  {
    if acts == [] then line
    else LastEntered(Acted(w, acts[0]), acts[1..], if acts[0] == Press(ENTER) then w.desk.lines[w.desk.front] else line)
  }

  /** The same, but of Enters with terminal t in front alone. */
  ghost function LastEnteredAt(w: Typewriter, acts: seq<Act>, line: seq<Byte>, t: nat): seq<Byte>
    requires InOrder(w) && CanDo(w, acts)
    decreases |acts|
  {
    if acts == [] then line
    else
      LastEnteredAt(Acted(w, acts[0]), acts[1..],
                    if acts[0] == Press(ENTER) && w.desk.front == t then w.desk.lines[t] else line, t)
  }

  lemma {:induction false} NewlineEndsNothing(line: seq<Byte>)
    ensures FirstLine(line + [NEWLINE]) == FirstLine(line)
  {
    if line != [] {
      assert (line + [NEWLINE])[1..] == line[1..] + [NEWLINE];
      NewlineEndsNothing(line[1..]);
    }
  }

  /** After any acts whatever every reader is handed the line that was in front at the last Enter, wherever that was. */
  lemma {:induction false} EveryReaderGetsLastEntered(w: Typewriter, acts: seq<Act>, line: seq<Byte>)
    requires InOrder(w) && CanDo(w, acts) && FirstLine(w.saved) == FirstLine(line)
    ensures FirstLine(ActedOut(w, acts).saved) == FirstLine(LastEntered(w, acts, line))
    ensures forall nbytes ::
              Handed(ActedOut(w, acts), nbytes) == Delivered(FirstLine(LastEntered(w, acts, line)), nbytes)
    decreases |acts|
  {
    hide Struck, OverflowAfter;
    if acts != [] {
      NewlineEndsNothing(w.saved);
      EveryReaderGetsLastEntered(Acted(w, acts[0]), acts[1..],
                                 if acts[0] == Press(ENTER) then w.desk.lines[w.desk.front] else line);
    }
  }

  /**
   * So a reader at terminal t gets the line last entered there, whatever the size of its read, exactly when the line
   * last entered anywhere reads the same.
   */
  lemma OwnLineIffLast(w: Typewriter, acts: seq<Act>, t: nat)
    requires InOrder(w) && CanDo(w, acts)
    ensures var own, last := FirstLine(LastEnteredAt(w, acts, w.saved, t)), FirstLine(LastEntered(w, acts, w.saved));
            (forall nbytes :: Handed(ActedOut(w, acts), nbytes) == Delivered(own, nbytes)) <==> own == last
  {
    hide FirstLine;
    var own, last := FirstLine(LastEnteredAt(w, acts, w.saved, t)), FirstLine(LastEntered(w, acts, w.saved));
    EveryReaderGetsLastEntered(w, acts, w.saved);
    if own != last {
      var n := |own| + |last| + 1;
      assert (own + [NEWLINE])[..|own|] == own && (last + [NEWLINE])[..|last|] == last;
      assert Delivered(own, n) == own + [NEWLINE] && Delivered(last, n) == last + [NEWLINE];
      assert Handed(ActedOut(w, acts), n) != Delivered(own, n);
    }
  }

  /** Enter at a second terminal before the first one's line is read: the first reader gets the second's line. */
  lemma SecondEnterWins(w: Typewriter, t: nat, nbytes: int)
    requires InOrder(w) && t < 3 && t != w.desk.front && w.entered[t]
    ensures var r := Acted(w, Press(ENTER));
            CanAct(r, Fetch(t, nbytes)) && Handed(r, nbytes) == Delivered(FirstLine(w.desk.lines[w.desk.front]), nbytes)
  {
  }

  /** A read at a terminal that is not in front blanks the line being typed in front. */
  lemma BackgroundReadBlanksFront(w: Typewriter, t: nat, nbytes: int)
    requires CanAct(w, Fetch(t, nbytes))
    ensures Acted(w, Fetch(t, nbytes)).desk.lines[w.desk.front] == []
    ensures forall u :: 0 <= u < 3 && u != t && u != w.desk.front ==>
              Acted(w, Fetch(t, nbytes)).desk.lines[u] == w.desk.lines[u]
  {
  }

  /** Two reads after one Enter on a full line: the second one's newline would go past the buffer. */
  lemma SecondReadOverruns(w: Typewriter, t: nat, nbytes: int)
    requires InOrder(w) && t < 3 && t != w.desk.front && w.entered[t] && |w.desk.lines[w.desk.front]| == LINE
    ensures CanAct(Acted(w, Press(ENTER)), Fetch(w.desk.front, nbytes))
    ensures var r := Acted(Acted(w, Press(ENTER)), Fetch(w.desk.front, nbytes));
            r.entered[t] && |r.saved| == LINE + 1
  {
  }

  /** The line that Enter saved stays for its reader through all acts but another Enter and another read. */
  lemma {:induction false} SavedLineWaits(w: Typewriter, acts: seq<Act>)
    requires InOrder(w) && CanDo(w, acts) && forall i :: 0 <= i < |acts| ==> acts[i].Press? && acts[i].code != ENTER
    ensures ActedOut(w, acts).saved == w.saved && ActedOut(w, acts).entered == w.entered
    decreases |acts|
  {
    hide Struck, InOrder;
    if acts != [] {
      SavedLineWaits(Acted(w, acts[0]), acts[1..]);
    }
  }
}
