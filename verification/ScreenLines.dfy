// What text looks like on a screen: lines one to a row, the last ones when there are too many.
module ScreenLines {
  import opened Bytes
  import G = Grep
  import opened Screen

  /** Bytes that take one cell each. */
  predicate Plain(line: seq<Byte>) {
    forall i :: 0 <= i < |line| ==> line[i] !in {NEWLINE, RETURN, BACKSPACE, TAB}
  }

  /** From column x of row y on the row shows the line, and everything else is as it was. */
  ghost predicate ShowsLine(s: Screen, r: Screen, y: int, x: int, line: seq<Byte>) {
    && |s.page| == |r.page| == 4096 && 0 <= y < 25 && 0 <= x && x + |line| <= 80
    && (forall row, column :: 0 <= row < 25 && 0 <= column < 80 ==>
          Shown(r, row, column) == if row == y && x <= column < x + |line| then line[column - x]
                                   else Shown(s, row, column))
  }

  lemma {:induction false} LineIsShown(s: Screen, c1: Byte, line: seq<Byte>)
    requires After(s, c1) && Plain(line) && s.x + |line| < 80
    ensures var r := Written(s, c1, line);
            r.x == s.x + |line| && r.y == s.y && ShowsLine(s, r, s.y, s.x, line)
    decreases |line|
  {
    if line != [] {
      PutStaysOnScreen(s, c1, line[0]);
      PrintingMoves(s, c1, line[0]);
      LineIsShown(Put(s, c1, line[0]), line[0], line[1..]);
    }
  }

  /** A line with its newline, from the first column: the row shows it, and the next one begins. */
  lemma NextLineIsShown(s: Screen, line: seq<Byte>)
    requires OnScreen(s) && s.x == 0 && Plain(line) && |line| < 80
    ensures var r, row := Written(s, NUL, line + [NEWLINE]), Written(s, NUL, line);
            && ShowsLine(s, row, s.y, 0, line) && r.x == 0 && r.y == Min(24, s.y + 1)
            && if s.y < 24 then r.page == row.page else RowsMovedUp(row, r)
  {
    hide Scrolled, RowsMovedUp, ShowsLine;
    LineIsShown(s, NUL, line);
    WrittenOneMore(s, NUL, line, NEWLINE);
    NewlineMoves(Written(s, NUL, line), if line == [] then NUL else line[|line| - 1], NEWLINE);
  }

  /** From this row on the screen is blank. */
  ghost predicate BlankFrom(s: Screen, y: int) {
    |s.page| == 4096 &&
    forall row, column :: 0 <= row < 25 && y <= row && 0 <= column < 80 ==> Shown(s, row, column) == SPACE
  }

  lemma {:induction false} UnlinesOneMore(lines: seq<seq<Byte>>, last: seq<Byte>)
    ensures G.Unlines(lines + [last]) == G.Unlines(lines) + (last + [NEWLINE])
  {
    if lines == [] {
      assert [] + [last] == [last] && [last][1..] == [];
    } else {
      assert (lines + [last])[1..] == lines[1..] + [last];
      UnlinesOneMore(lines[1..], last);
    }
  }

  /** What a line shows in a column of its row. */
  function Cell(line: seq<Byte>, column: nat): Byte {
    if column < |line| then line[column] else SPACE
  }

  /** The row above the cursor's shows the last line, the row above that the one before, as far as there are rows. */
  ghost predicate ShowsLines(r: Screen, lines: seq<seq<Byte>>) {
    && OnScreen(r) && r.x == 0 && BlankFrom(r, r.y)
    && forall row, column :: 0 <= row < r.y && r.y - |lines| <= row && 0 <= column < 80 ==>
         Shown(r, row, column) == Cell(lines[|lines| - (r.y - row)], column)
  }

  /**
   * Lines of printable bytes shorter than a row, written from the first column of a screen that is blank from there on,
   * show one per row and nothing else beside them; when there are too many for the screen, the last ones do.
   */
  lemma {:induction false} LinesAreShown(s: Screen, lines: seq<seq<Byte>>)
    requires OnScreen(s) && s.x == 0 && BlankFrom(s, s.y)
    requires forall i :: 0 <= i < |lines| ==> Plain(lines[i]) && |lines[i]| < 80
    ensures var r := Written(s, NUL, G.Unlines(lines));
            r.y == Min(24, s.y + |lines|) && ShowsLines(r, lines)
  {
    if lines != [] {
      var init, last := lines[..|lines| - 1], lines[|lines| - 1];
      assert lines == init + [last];
      UnlinesOneMore(init, last);
      LinesAreShown(s, init);
      WrittenInParts(s, NUL, G.Unlines(init), last + [NEWLINE]);
      NextLineIsShown(Written(s, NUL, G.Unlines(init)), last);
      OneMoreLine(Written(s, NUL, G.Unlines(init)), Written(Written(s, NUL, G.Unlines(init)), NUL, last),
                  Written(s, NUL, G.Unlines(lines)), init, last);
    }
  }

  lemma OneMoreLine(s: Screen, row: Screen, r: Screen, init: seq<seq<Byte>>, last: seq<Byte>)
    requires ShowsLines(s, init) && |last| < 80 && ShowsLine(s, row, s.y, 0, last)
    requires OnScreen(r) && r.x == 0 && r.y == Min(24, s.y + 1)
    requires if s.y < 24 then r.page == row.page else RowsMovedUp(row, r)
    ensures ShowsLines(r, init + [last])
  {
    var lines := init + [last];
    var up := if s.y < 24 then 0 else 1;
    forall y, column | 0 <= y < r.y && r.y - |lines| <= y && 0 <= column < 80
      ensures Shown(r, y, column) == Cell(lines[|lines| - (r.y - y)], column)
    {
      assert Shown(r, y, column) == Shown(row, y + up, column);
    }
    forall y, column | 0 <= y < 25 && r.y <= y && 0 <= column < 80 ensures Shown(r, y, column) == SPACE {
      if s.y < 24 {
        assert Shown(r, y, column) == Shown(row, y, column) == Shown(s, y, column);
      }
    }
  }
}
