// One text screen: a page of character/attribute pairs and a cursor, and what printing one byte does to it.
module Screen {
  import opened Bytes

  const ROWS := 25
  const ATTRIBUTE: Byte := 7

  /** Cell n of the page is the byte pair at 2n: the character, then its attribute. */
  datatype Screen = Screen(page: seq<Byte>, x: int, y: int)

  predicate OnScreen(s: Screen) {
    |s.page| == 4096 && 0 <= s.x <= 80 && 0 <= s.y <= 24
  }

  function SetCell(page: seq<Byte>, cell: nat, c: Byte): (r: seq<Byte>)
    requires 2 * cell + 1 < |page|
    ensures |r| == |page|
  {
    page[2 * cell := c][2 * cell + 1 := ATTRIBUTE]
  }

  /** Characters move up one row and the last row is blanked; attributes stay where they are. */
  function Scrolled(page: seq<Byte>): (r: seq<Byte>)
    requires |page| == 4096
    ensures |r| == 4096
  {
    seq(4096, k requires 0 <= k < 4096 =>
      if k % 2 == 1 || k >= 4000 then page[k] else if k >= 3840 then SPACE else page[k + 160])
  }

  /** A cursor that has moved below the last row scrolls the screen back under it. */
  function Settle(s: Screen): Screen
    requires |s.page| == 4096
  {
    if s.y >= 25 then s.(page := Scrolled(s.page), y := 24) else s
  }

  /** Printing c, when the byte printed just before was c1. */
  function Put(s: Screen, c1: Byte, c: Byte): (r: Screen)
    requires OnScreen(s)
  {
    if c == NEWLINE || c == RETURN then
      Settle(s.(x := 0, y := s.y + 1))
    else if c == BACKSPACE then
      if s.x == 0 && s.y == 0 then s
      else if c1 != TAB then
        if s.x == 0 then Screen(SetCell(s.page, 80 * (s.y - 1) + 79, SPACE), 79, s.y - 1)
        else Screen(SetCell(s.page, 80 * s.y + (s.x - 1), SPACE), s.x - 1, s.y)
      else if s.x < 4 then s.(x := 80 + s.x - 4, y := s.y - 1)
      else s.(x := s.x - 4)
    else if c == TAB then
      if s.x <= 76 then s.(x := s.x + 4)
      else Settle(s.(x := (s.x + 4) % 80, y := s.y + 1))
    else
      var printed := SetCell(s.page, 80 * s.y + s.x, c);
      var below := if (s.x + 1) % 80 == 0 then s.y + 1 else s.y;
      Settle(Screen(printed, (s.x + 1) % 80, below))
  }

  /**
   * The one step that takes the cursor off the screen: rubbing out a tab from columns 1 to 3 of the top row,
   * where no tab can have ended.
   */
  lemma LeavesScreen(s: Screen, c1: Byte, c: Byte)
    requires OnScreen(s)
    ensures !OnScreen(Put(s, c1, c)) <==> c == BACKSPACE && c1 == TAB && 0 < s.x < 4 && s.y == 0
  {
  }

  lemma TabRubbedOutTooEarly()
    ensures var s := Screen(seq(4096, _ => SPACE), 2, 0);
            OnScreen(s) && Put(s, TAB, BACKSPACE).y == -1
  {
  }

  /** s can be the screen right after c was printed: the cursor is in bounds and past the reach of a tab. */
  predicate After(s: Screen, c: Byte) {
    OnScreen(s) && (c == TAB ==> s.x >= 4 || s.y >= 1)
  }

  lemma PutStaysOnScreen(s: Screen, c1: Byte, c: Byte)
    requires After(s, c1)
    ensures After(Put(s, c1, c), c)
  {
  }

  /** The screen after printing bytes one by one, each knowing its predecessor. */
  function Written(s: Screen, c1: Byte, bytes: seq<Byte>): (r: Screen)
    requires After(s, c1)
    ensures OnScreen(r)
    decreases |bytes|
  {
    if bytes == [] then s
    else
      PutStaysOnScreen(s, c1, bytes[0]);
      Written(Put(s, c1, bytes[0]), bytes[0], bytes[1..])
  }

  lemma {:induction false} WrittenOneMore(s: Screen, c1: Byte, bytes: seq<Byte>, c: Byte)
    requires After(s, c1)
    ensures var last := if bytes == [] then c1 else bytes[|bytes| - 1];
            && After(Written(s, c1, bytes), last)
            && Written(s, c1, bytes + [c]) == Put(Written(s, c1, bytes), last, c)
    decreases |bytes|
  {
    if bytes == [] {
      assert (bytes + [c])[1..] == [];
      PutStaysOnScreen(s, c1, c);
    } else {
      PutStaysOnScreen(s, c1, bytes[0]);
      WrittenOneMore(Put(s, c1, bytes[0]), bytes[0], bytes[1..], c);
      assert (bytes + [c])[1..] == bytes[1..] + [c];
    }
  }

  /** A write does not know what was printed before it, which matters only to a backspace that rubs out a tab. */
  lemma WrittenAfresh(s: Screen, c1: Byte, bytes: seq<Byte>)
    requires After(s, c1) && !(c1 == TAB && bytes != [] && bytes[0] == BACKSPACE)
    ensures Written(s, c1, bytes) == Written(s, NUL, bytes)
  {
  }

  /** Else it makes no difference how bytes are divided among writes. */
  lemma {:induction false} WrittenInParts(s: Screen, c1: Byte, part: seq<Byte>, rest: seq<Byte>)
    requires After(s, c1)
    requires var last := if part == [] then c1 else part[|part| - 1];
             !(last == TAB && rest != [] && rest[0] == BACKSPACE)
    ensures Written(s, c1, part + rest) == Written(Written(s, c1, part), NUL, rest)
    decreases |part|
  {
    if part == [] {
      assert [] + rest == rest;
      WrittenAfresh(s, c1, rest);
    } else {
      PutStaysOnScreen(s, c1, part[0]);
      WrittenInParts(Put(s, c1, part[0]), part[0], part[1..], rest);
      assert (part + rest)[1..] == part[1..] + rest;
    }
  }

  // ---- What the picture shows ----

  /** The character shown at a row and column. */
  function Shown(s: Screen, row: nat, column: nat): Byte
    requires |s.page| == 4096 && row < 25 && column < 80
  {
    s.page[2 * (80 * row + column)]
  }

  predicate Blank(s: Screen) {
    |s.page| == 4096 && s.x == 0 && s.y == 0 &&
    forall row, column :: 0 <= row < 25 && 0 <= column < 80 ==> Shown(s, row, column) == SPACE
  }

  /** The cleared screen: blanks everywhere and the cursor in the corner; what the page holds past the screen stays. */
  function Cleared(s: Screen): (r: Screen)
    requires |s.page| == 4096
    ensures OnScreen(r) && Blank(r)
  {
    Screen(seq(4096, k requires 0 <= k < 4096 =>
             if k >= 4000 then s.page[k] else if k % 2 == 0 then SPACE else ATTRIBUTE), 0, 0)
  }

  /** A printable byte not at the very end of the picture shows at the cursor and rubbing it out undoes the move. */
  lemma PrintThenRubOut(s: Screen, c1: Byte, c: Byte, c0: Byte)
    requires OnScreen(s) && s.x < 80 && c !in {NEWLINE, RETURN, BACKSPACE, TAB} && c0 != TAB
    requires !(s.x == 79 && s.y == 24)
    ensures Shown(Put(s, c1, c), s.y, s.x) == c
    ensures OnScreen(Put(s, c1, c))
    ensures var r := Put(Put(s, c1, c), c0, BACKSPACE);
            && r.x == s.x && r.y == s.y && Shown(r, s.y, s.x) == SPACE
            && forall row, column :: 0 <= row < 25 && 0 <= column < 80 && (row, column) != (s.y, s.x) ==>
                 Shown(r, row, column) == Shown(s, row, column)
  {
  }

  /** Every row now shows what the row below it showed, and the last row is blank. */
  ghost predicate RowsMovedUp(s: Screen, r: Screen) {
    && |s.page| == |r.page| == 4096
    && (forall row, column :: 0 <= row < 24 && 0 <= column < 80 ==>
          Shown(r, row, column) == Shown(s, row + 1, column))
    && (forall column :: 0 <= column < 80 ==> Shown(r, 24, column) == SPACE)
  }

  lemma ScrolledMovesUp(s: Screen, r: Screen)
    requires |s.page| == 4096 && r.page == Scrolled(s.page)
    ensures RowsMovedUp(s, r)
  {
    forall row, column | 0 <= row < 24 && 0 <= column < 80
      ensures Shown(r, row, column) == Shown(s, row + 1, column)
    {
      var k := 2 * (80 * row + column);
      assert Scrolled(s.page)[k] == s.page[k + 160];
    }
  }

  /** Only the cell at this place may have changed, and shows c. */
  ghost predicate OnlyCell(s: Screen, r: Screen, y: int, x: int, c: Byte) {
    && |s.page| == |r.page| == 4096 && 0 <= y < 25 && 0 <= x < 80
    && (forall row, column :: 0 <= row < 25 && 0 <= column < 80 ==>
          Shown(r, row, column) == if (row, column) == (y, x) then c else Shown(s, row, column))
  }

  /** A newline or return goes to the first column of the next row; on the last row every row moves up. */
  lemma NewlineMoves(s: Screen, c1: Byte, c: Byte)
    requires OnScreen(s) && c in {NEWLINE, RETURN}
    ensures var r := Put(s, c1, c);
            r.x == 0 && r.y == Min(24, s.y + 1) && if s.y < 24 then r.page == s.page else RowsMovedUp(s, r)
  {
    hide Scrolled, RowsMovedUp;
    if s.y == 24 {
      ScrolledMovesUp(s, Put(s, c1, c));
    }
  }

  /** A tab moves four columns on, across the end of the row to the next, and draws nothing. */
  lemma TabMoves(s: Screen, c1: Byte)
    requires OnScreen(s)
    ensures var r := Put(s, c1, TAB);
            if s.x <= 76 then r == s.(x := s.x + 4)
            else
              && r.x == s.x + 4 - 80 && r.y == Min(24, s.y + 1)
              && if s.y < 24 then r.page == s.page else RowsMovedUp(s, r)
  {
    hide Scrolled, RowsMovedUp;
    if s.x > 76 && s.y == 24 {
      ScrolledMovesUp(s, Put(s, c1, TAB));
    }
  }

  /**
   * Rubbing out a tab just printed brings the cursor back to where it was, one row higher if the screen has moved up,
   * exactly when it was not past the last column, where a tab can leave it.
   */
  lemma RubbingOutUndoesTab(s: Screen, c1: Byte)
    requires OnScreen(s)
    ensures var tabbed := Put(s, c1, TAB);
            OnScreen(tabbed) &&
            var r := Put(tabbed, TAB, BACKSPACE);
            && r.page == tabbed.page
            && (r.x == s.x && r.y == s.y - (if s.x > 76 && s.y == 24 then 1 else 0) <==> s.x < 80)
  {
    hide Scrolled;
  }

  /** Any other byte rubbed out: the cell before the cursor, on the row above from the first column, is blanked. */
  lemma RubbingOutMoves(s: Screen, c1: Byte)
    requires OnScreen(s) && c1 != TAB
    ensures var r := Put(s, c1, BACKSPACE);
            if s.x == 0 && s.y == 0 then r == s
            else if s.x == 0 then r.x == 79 && r.y == s.y - 1 && OnlyCell(s, r, s.y - 1, 79, SPACE)
            else r.x == s.x - 1 && r.y == s.y && OnlyCell(s, r, s.y, s.x - 1, SPACE)
  {
  }

  /** A printable byte shows at the cursor, which goes one column on, and from the last column to the next row. */
  lemma PrintingMoves(s: Screen, c1: Byte, c: Byte)
    requires OnScreen(s) && s.x < 80 && c !in {NEWLINE, RETURN, BACKSPACE, TAB}
    ensures var r, printed := Put(s, c1, c), s.(page := SetCell(s.page, 80 * s.y + s.x, c));
            && OnlyCell(s, printed, s.y, s.x, c)
            && if s.x < 79 then r == printed.(x := s.x + 1)
               else if s.y < 24 then r == printed.(x := 0, y := s.y + 1)
               else r.x == 0 && r.y == 24 && RowsMovedUp(printed, r)
  {
    hide Scrolled, RowsMovedUp;
    if s.x == 79 && s.y == 24 {
      ScrolledMovesUp(s.(page := SetCell(s.page, 80 * s.y + s.x, c)), Put(s, c1, c));
    }
  }

  /**
   * From the place past the last column, where only a tab leaves the cursor, the byte shows in the first column of the
   * row below, or on the last row not at all, and the cursor goes to the second column of the row it was on.
   */
  lemma PrintingPastEdge(s: Screen, c1: Byte, c: Byte)
    requires OnScreen(s) && s.x == 80 && c !in {NEWLINE, RETURN, BACKSPACE, TAB}
    ensures var r := Put(s, c1, c);
            && r.x == 1 && r.y == s.y
            && if s.y < 24 then OnlyCell(s, r, s.y + 1, 0, c)
               else |r.page| == 4096 && forall row, column :: 0 <= row < 25 && 0 <= column < 80 ==>
                                          Shown(r, row, column) == Shown(s, row, column)
  {
  }
}
