// What typing means: the keyboard layout of student-distrib/keyboard_handler.c and the line each keystroke leaves.
module LineEditing {
  import opened Bytes

  const KEYS: nat := 60
  const LINE: nat := 127
  const ENTER: Byte := 0x1C

  // The four layouts (plain, with caps lock, with shift, with both), a row of keys at a time; NUL types nothing.

  ghost predicate PrintsInLine(s: string) {
    forall i :: 0 <= i < |s| ==> s[i] as int < 0x80 && s[i] != '\n' && s[i] != '\U{0008}'
  }

  function NumberRow(shift: bool): (s: string)
    ensures |s| == 14 && PrintsInLine(s)
  {
    if shift then "\0\0!@#$%^&*()_+" else "\0\01234567890-="
  }

  function UpperRow(caps: bool, shift: bool): (s: string)
    ensures |s| == 14 && s[0] == '\U{0008}' && PrintsInLine(s[1..])
  {
    if !caps && !shift then "\U{0008}\tqwertyuiop[]"
    else if !shift then "\U{0008}\tQWERTYUIOP[]"
    else if !caps then "\U{0008}\tQWERTYUIOP{}"
    else "\U{0008}\tqwertyuiop{}"
  }

  function HomeRow(caps: bool, shift: bool): (s: string)
    ensures |s| == 14 && s[0] == '\n' && PrintsInLine(s[1..])
  {
    if !caps && !shift then "\n\0asdfghjkl;'`"
    else if !shift then "\n\0ASDFGHJKL;'`"
    else if !caps then "\n\0ASDFGHJKL:\"~"
    else "\n\0asdfghjkl:\"~"
  }

  function LowerRow(caps: bool, shift: bool): (s: string)
    ensures |s| == 18 && PrintsInLine(s)
  {
    if !caps && !shift then "\0\\zxcvbnm,./\0*\0 \0\0"
    else if !shift then "\0\\ZXCVBNM,./\0*\0 \0\0"
    else if !caps then "\0|ZXCVBNM<>?\0*\0 \0\0"
    else "\0\\zxcvbnm<>?\0*\0 \0\0"
  }

  function Character(caps: bool, shift: bool, code: nat): (c: char)
    requires code < KEYS
    ensures c as int < 0x80
  {
    if code < 14 then NumberRow(shift)[code]
    else if code < 28 then
      assert 14 < code ==> UpperRow(caps, shift)[1..][code - 15] == UpperRow(caps, shift)[code - 14];
      UpperRow(caps, shift)[code - 14]
    else if code < 42 then
      assert 28 < code ==> HomeRow(caps, shift)[1..][code - 29] == HomeRow(caps, shift)[code - 28];
      HomeRow(caps, shift)[code - 28]
    else LowerRow(caps, shift)[code - 42]
  }

  /** The byte a key types in a layout. */
  function Letter(caps: bool, shift: bool, code: nat): Byte
    requires code < KEYS
  {
    Character(caps, shift, code) as int
  }

  /** Enter is the one key that types a newline and Backspace the one that types a backspace, in every layout. */
  lemma OnlyEnterTypesNewline(caps: bool, shift: bool, code: nat)
    requires code < KEYS
    ensures Letter(caps, shift, code) == NEWLINE <==> code == ENTER
    ensures Letter(caps, shift, code) == BACKSPACE <==> code == 14
  {
    hide NumberRow, UpperRow, HomeRow, LowerRow;
    if 14 < code < 28 {
      assert UpperRow(caps, shift)[1..][code - 15] == UpperRow(caps, shift)[code - 14];
    }
    if 28 < code < 42 {
      assert HomeRow(caps, shift)[1..][code - 29] == HomeRow(caps, shift)[code - 28];
    }
  }

  datatype Modifiers = Modifiers(caps: bool, shift: bool, ctrl: bool, alt: bool)

  /** The flags after the releases a scan code can report. */
  function Released(m: Modifiers, code: Byte): Modifiers {
    m.(shift := m.shift && code != 0xAA && code != 0xB6, ctrl := m.ctrl && code != 0x9D, alt := m.alt && code != 0xB8)
  }

  /** The flags after the presses a scan code can report. */
  function Pressed(m: Modifiers, code: Byte): Modifiers {
    if code == 0x3A then m.(caps := !m.caps)
    else if code == 0x2A || code == 0x36 then m.(shift := true)
    else if code == 0x1D then m.(ctrl := true)
    else if code == 0x38 then m.(alt := true)
    else m
  }

  /** Alt with F1, F2 or F3 asks for a terminal. */
  function SwitchTo(m: Modifiers, code: Byte): Option<nat> {
    if m.alt && 0x3B <= code <= 0x3D then Some(code - 0x3B) else None
  }

  /** The ideal line editor: append while there is room, drop the last character on backspace. */
  function Edited(line: seq<Byte>, m: Modifiers, code: nat): (r: seq<Byte>)
    requires code < KEYS && |line| <= LINE
    ensures |r| <= LINE
  {
    if Letter(false, false, code) == BACKSPACE then
      if line == [] then [] else line[..|line| - 1]
    else if code == 0x3A || code == 0x38 || (Letter(false, false, code) == 0x6C && m.ctrl) then line
    else if Letter(m.caps, m.shift, code) == NUL || |line| == LINE then line
    else line + [Letter(m.caps, m.shift, code)]
  }

  /** The count of characters echoed after the line was full, which backspace takes back once the line is empty. */
  function Overflowed(line: seq<Byte>, overflow: int, m: Modifiers, code: nat): int
    requires code < KEYS && |line| <= LINE
  {
    if Letter(false, false, code) == BACKSPACE then
      if line == [] && overflow != 0 then overflow - 1 else overflow
    else if |line| == LINE && code != 0x3A && code != 0x38 && !(Letter(false, false, code) == 0x6C && m.ctrl)
            && Letter(m.caps, m.shift, code) != NUL then overflow + 1
    else overflow
  }

  /** What a keystroke does to the screen in front: nothing, one printed byte after the given one, or blank it all. */
  datatype Echo = Silent | Prints(before: Byte, c: Byte) | ClearsScreen

  function EchoOf(line: seq<Byte>, overflow: int, m: Modifiers, code: nat): Echo
    requires code < KEYS && |line| <= LINE
  {
    if Letter(false, false, code) == BACKSPACE then
      if line != [] then Prints(line[|line| - 1], BACKSPACE)
      else if overflow != 0 then Prints(NUL, BACKSPACE)
      else Silent
    else if code == 0x3A || code == 0x38 then Silent
    else if Letter(false, false, code) == 0x6C && m.ctrl then ClearsScreen
    else if Letter(m.caps, m.shift, code) != NUL then Prints(NUL, Letter(m.caps, m.shift, code))
    else Silent
  }

  /**
   * A byte is echoed exactly when one is typed into the line or overflows it, and one is rubbed out exactly when one is
   * taken back: as many bytes stand echoed as the line and the overflow count hold together.
   */
  lemma EchoKeepsCount(line: seq<Byte>, overflow: nat, m: Modifiers, code: nat)
    requires code < KEYS && |line| <= LINE
    ensures var echo := EchoOf(line, overflow, m, code);
            var typed := |Edited(line, m, code)| + Overflowed(line, overflow, m, code);
            && (echo.Prints? && echo.c != BACKSPACE <==> typed == |line| + overflow + 1)
            && (echo.Prints? && echo.c == BACKSPACE <==> typed == |line| + overflow - 1)
            && (!echo.Prints? <==> typed == |line| + overflow)
  {
    hide Letter;
    OnlyEnterTypesNewline(m.caps, m.shift, code);
    OnlyEnterTypesNewline(false, false, code);
  }

  /** While there is room the byte that a key adds to the line is the byte that is echoed; past that none is added. */
  lemma TypesWhatItShows(line: seq<Byte>, overflow: int, m: Modifiers, code: nat)
    requires code < KEYS && |line| <= LINE
    ensures var echo := EchoOf(line, overflow, m, code);
            if echo.Prints? && echo.c != BACKSPACE then
              Edited(line, m, code) == if |line| < LINE then line + [echo.c] else line
            else if echo.Prints? && line != [] then
              line == Edited(line, m, code) + [echo.before]
            else Edited(line, m, code) == line
  {
    hide Letter;
    OnlyEnterTypesNewline(m.caps, m.shift, code);
    OnlyEnterTypesNewline(false, false, code);
  }

  /** Backspace takes the last byte and no other, whatever the modifiers, and so undoes any key that added one. */
  lemma BackspaceUndoes(line: seq<Byte>, m: Modifiers, code: nat, later: Modifiers)
    requires code < KEYS && |line| <= LINE
    ensures line != [] ==> line == Edited(line, later, 14) + [line[|line| - 1]]
    ensures line == [] ==> Edited(line, later, 14) == []
    ensures |Edited(line, m, code)| > |line| ==> Edited(Edited(line, m, code), later, 14) == line
  {
    hide Letter;
    OnlyEnterTypesNewline(false, false, 14);
  }

  // ---- Three terminals and one keyboard ----

  /** The line being typed at each terminal, the terminal in front, and the modifier keys. */
  datatype Desk = Desk(lines: seq<seq<Byte>>, front: nat, keys: Modifiers)

  ghost predicate Tidy(d: Desk) {
    && |d.lines| == 3 && d.front < 3
    && forall t :: 0 <= t < 3 ==> |d.lines[t]| <= LINE && NEWLINE !in d.lines[t]
  }

  /** A keystroke other than Enter; or Enter, with the read that fetches the line before the next keystroke. */
  datatype Stroke = Key(code: Byte) | Return(nbytes: int)

  predicate Proper(stroke: Stroke) {
    stroke.Key? ==> stroke.code != ENTER
  }

  /** One keystroke changes only the line in front, or only which terminal is in front. */
  function Typed(d: Desk, code: Byte): Desk
    requires |d.lines| == 3 && d.front < 3 && |d.lines[d.front]| <= LINE
  {
    var keys := Released(d.keys, code);
    if SwitchTo(keys, code).Some? then d.(front := SwitchTo(keys, code).value, keys := keys)
    else if code >= KEYS then d.(keys := keys)
    else Desk(d.lines[d.front := Edited(d.lines[d.front], Pressed(keys, code), code)], d.front, Pressed(keys, code))
  }

  /** How much of a line a read of this size takes. */
  function Limit(nbytes: int): nat {
    if nbytes >= 1 then nbytes else 128
  }

  /** A line up to its first newline. */
  function FirstLine(line: seq<Byte>): (r: seq<Byte>)
    ensures |r| <= |line|
  {
    if line == [] || line[0] == NEWLINE then [] else [line[0]] + FirstLine(line[1..])
  }

  lemma {:induction false} FirstLineIs(line: seq<Byte>, n: nat)
    requires n <= |line| && NEWLINE !in line[..n] && (n == |line| || line[n] == NEWLINE)
    ensures FirstLine(line) == line[..n]
  {
    if n > 0 {
      assert line[..n][0] == line[0] && line[1..][..n - 1] == line[..n][1..];
      FirstLineIs(line[1..], n - 1);
    }
  }

  lemma FirstLineWhole(line: seq<Byte>)
    ensures NEWLINE !in line ==> FirstLine(line) == line
  {
    if NEWLINE !in line {
      assert line[..|line|] == line;
      FirstLineIs(line, |line|);
    }
  }

  /** What a read delivers for a line ended by Enter. */
  function Delivered(line: seq<Byte>, nbytes: int): seq<Byte> {
    Cut(line + [NEWLINE], Limit(nbytes))
  }

  /**
   * A read never gets more than it asked for, and no less unless the line is shorter: the line and its newline, cut. A
   * read that asks for nothing gets the whole line.
   */
  lemma DeliversNoMore(line: seq<Byte>, nbytes: int)
    requires nbytes >= 1 || |line| <= LINE
    ensures Delivered(line, nbytes) <= line + [NEWLINE]
    ensures |Delivered(line, nbytes)| == if nbytes >= 1 then Min(nbytes, |line| + 1) else |line| + 1
  {
  }

  /** A copy that stops at a newline, the first there is, is what the read delivers. */
  lemma CopiedToNewline(line: seq<Byte>, i: nat, nbytes: int)
    requires i <= |line| && NEWLINE !in line[..i] && i < Limit(nbytes) && (i < |line| ==> line[i] == NEWLINE)
    ensures Delivered(FirstLine(line), nbytes) == line[..i] + [NEWLINE]
  {
    hide FirstLine;
    FirstLineIs(line, i);
  }

  /** And so is one that stops at the size of the read before any newline. */
  lemma CopiedToSize(line: seq<Byte>, n: nat, nbytes: int)
    requires n <= |line| && NEWLINE !in line[..n] && n == Limit(nbytes)
    ensures (line + [NEWLINE])[..n] == line[..n] == Delivered(FirstLine(line), nbytes)
  {
    hide FirstLine;
    FirstLineAtLeast(line, n);
    CutInside(FirstLine(line), [NEWLINE], n);
    CutInside(line, [NEWLINE], n);
  }

  lemma CutInside(a: seq<Byte>, b: seq<Byte>, n: nat)
    requires n <= |a|
    ensures (a + b)[..n] == a[..n] && Cut(a + b, n) == a[..n]
  {
  }

  lemma {:induction false} FirstLineAtLeast(line: seq<Byte>, n: nat)
    requires n <= |line| && NEWLINE !in line[..n]
    ensures n <= |FirstLine(line)| && FirstLine(line)[..n] == line[..n]
  {
    if n > 0 {
      assert line[..n][0] == line[0] && line[1..][..n - 1] == line[..n][1..];
      FirstLineAtLeast(line[1..], n - 1);
    }
  }

  function Next(d: Desk, stroke: Stroke): Desk
    requires |d.lines| == 3 && d.front < 3 && |d.lines[d.front]| <= LINE
  {
    match stroke
    case Key(code) => Typed(d, code)
    case Return(_) => d.(lines := d.lines[d.front := []])
  }

  lemma NextTidy(d: Desk, stroke: Stroke)
    requires Tidy(d) && Proper(stroke)
    ensures Tidy(Next(d, stroke))
  {
    hide Letter;
    if stroke.Key? && stroke.code < KEYS {
      var keys := Released(d.keys, stroke.code);
      if SwitchTo(keys, stroke.code).None? {
        EditedHasNoNewline(d.lines[d.front], Pressed(keys, stroke.code), stroke.code);
      }
    }
  }

  lemma EditedHasNoNewline(line: seq<Byte>, m: Modifiers, code: nat)
    requires code < KEYS && |line| <= LINE && NEWLINE !in line && code != ENTER
    ensures NEWLINE !in Edited(line, m, code)
  {
    hide Letter;
    OnlyEnterTypesNewline(m.caps, m.shift, code);
  }

  /** The desk after a run of strokes. */
  ghost function Worked(d: Desk, strokes: seq<Stroke>): (r: Desk)
    requires Tidy(d) && forall i :: 0 <= i < |strokes| ==> Proper(strokes[i])
    ensures Tidy(r)
  {
    if strokes == [] then d
    else
      var before := Worked(d, strokes[..|strokes| - 1]);
      NextTidy(before, strokes[|strokes| - 1]);
      Next(before, strokes[|strokes| - 1])
  }

  /** What the reads of the run deliver, one after another. */
  ghost function Read(d: Desk, strokes: seq<Stroke>): seq<seq<Byte>>
    requires Tidy(d) && forall i :: 0 <= i < |strokes| ==> Proper(strokes[i])
  {
    if strokes == [] then []
    else
      var before, last := Worked(d, strokes[..|strokes| - 1]), strokes[|strokes| - 1];
      Read(d, strokes[..|strokes| - 1])
      + if last.Return? then [Delivered(before.lines[before.front], last.nbytes)] else []
  }

  /** Switching away, typing elsewhere and switching back leave a terminal's line as it was. */
  lemma {:induction false} LineWaits(d: Desk, strokes: seq<Stroke>, t: nat)
    requires Tidy(d) && t < 3 && forall i :: 0 <= i < |strokes| ==> Proper(strokes[i])
    requires forall i :: 0 <= i < |strokes| ==> Worked(d, strokes[..i]).front != t
    ensures Worked(d, strokes).lines[t] == d.lines[t]
  {
    if strokes != [] {
      var init := strokes[..|strokes| - 1];
      assert forall i :: 0 <= i <= |init| ==> init[..i] == strokes[..i];
      LineWaits(d, init, t);
      assert strokes[..|strokes| - 1] == init;
    }
  }
}
