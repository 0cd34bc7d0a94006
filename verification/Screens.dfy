// The three consoles of student-distrib/terminal.c and lib.c: the displayed one lives in video memory and the
// global cursor, the others in their own buffers and saved cursors.
module Screens {
  import opened Bytes
  import opened Screen

  const CONSOLES: nat := 3

  datatype Position = Position(x: int, y: int)

  class Screens {
    const video: array<Byte>
    const vidBuf: seq<array<Byte>>
    const positions: array<Position>
    var screenX: int
    var screenY: int
    var curDisplayTid: int

    ghost function Memory(): set<object> {
      {video, positions} + set a | a in vidBuf
    }

    ghost predicate Separate() {
      && video.Length == 4096 && positions.Length == 3 && |vidBuf| == CONSOLES
      && (forall t :: 0 <= t < 3 ==> vidBuf[t].Length == 4096 && vidBuf[t] != video)
      && (forall t, u :: 0 <= t < 3 && 0 <= u < 3 && t != u ==> vidBuf[t] != vidBuf[u])
    }

    ghost predicate Valid()
      reads this, Memory()
    {
      && Separate()
      && 0 <= curDisplayTid < 3
      && (forall t :: 0 <= t < 3 ==> OnScreen(Console(t)))
    }

    /** What is in video memory, with the global cursor. */
    ghost function Front(): Screen
      reads this, video
    {
      Screen(video[..], screenX, screenY)
    }

    /** What is in a terminal's own buffer, with its saved cursor. */
    ghost function Back(t: nat): Screen
      requires Separate() && t < 3
      reads this, Memory()
    {
      Screen(vidBuf[t][..], positions[t].x, positions[t].y)
    }

    /** The console of terminal t, wherever it is kept at the moment. */
    ghost function Console(t: nat): Screen
      requires Separate() && t < 3
      reads this, Memory()
    {
      if t == curDisplayTid then Front() else Back(t)
    }

    constructor ()
      ensures Valid() && curDisplayTid == 0 && fresh(Memory())
      ensures forall t :: 0 <= t < 3 ==> Blank(Console(t))
    {
      var blank: nat -> Byte := k => if k < 4000 && k % 2 == 0 then SPACE else ATTRIBUTE;
      video := new Byte[4096](blank);
      var b0 := new Byte[4096](blank);
      var b1 := new Byte[4096](blank);
      var b2 := new Byte[4096](blank);
      vidBuf := [b0, b1, b2];
      positions := new Position[3](_ => Position(0, 0));
      screenX, screenY, curDisplayTid := 0, 0, 0;
      new;
      assert Blank(Front());
      assert forall t :: 0 <= t < 3 ==> Blank(Back(t));
    }

    /** scrolling_oneline and scrollingoneline: the same loops over video memory or over a terminal's buffer. */
    static method ScrollOneLine(page: array<Byte>)
      requires page.Length == 4096
      modifies page
      ensures page[..] == Scrolled(old(page[..]))
    {
      for i := 1 to 25
        invariant forall k :: 0 <= k < 4096 ==>
                    page[k] == if k % 2 == 0 && k < 160 * (i - 1) then old(page[k + 160]) else old(page[k])
      {
        for j := 0 to 80
          invariant forall k :: 0 <= k < 4096 ==>
                      page[k] == if k % 2 == 0 && k < 160 * (i - 1) + 2 * j then old(page[k + 160]) else old(page[k])
        {
          page[2 * (80 * (i - 1) + j)] := page[2 * (80 * i + j)];
        }
      }
      for m := 0 to 80
        invariant forall k :: 0 <= k < 4096 ==>
                    page[k] == if k % 2 == 0 && k < 3840 then old(page[k + 160])
                               else if k % 2 == 0 && k < 3840 + 2 * m then SPACE else old(page[k])
      {
        page[2 * (80 * 24 + m)] := SPACE;
      }
    }

    static method WriteCell(page: array<Byte>, cell: nat, c: Byte)
      requires page.Length == 4096 && 2 * cell + 1 < 4096
      modifies page
      ensures page[..] == SetCell(old(page[..]), cell, c)
    {
      page[2 * cell] := c;
      page[2 * cell + 1] := ATTRIBUTE;
    }

    method SpecialPutc(c1: Byte, c: Byte)
      requires Separate() && OnScreen(Front())
      modifies this`screenX, this`screenY, video
      ensures Front() == Put(old(Front()), c1, c)
    {
      if c == NEWLINE || c == RETURN {
        screenY := screenY + 1;
        screenX := 0;
        if screenY >= ROWS {
          ScrollOneLine(video);
          screenY := ROWS - 1;
        }
      } else if c == BACKSPACE {
        if screenX == 0 && screenY == 0 {
          return;
        }
        if screenX == 0 && c1 != TAB {
          WriteCell(video, 80 * (screenY - 1) + 79, SPACE);
          screenX := 79;
          screenY := screenY - 1;
        } else if screenX > 0 && c1 != TAB {
          screenX := screenX - 1;
          WriteCell(video, 80 * screenY + screenX, SPACE);
        } else if 0 <= screenX < 4 && c1 == TAB {
          screenX := 80 + screenX - 4;
          screenY := screenY - 1;
        } else if screenX >= 4 && c1 == TAB {
          screenX := screenX - 4;
        }
      } else if c == TAB {
        if 0 <= screenX <= 76 {
          screenX := screenX + 4;
        } else if screenX > 76 {
          screenX := (screenX + 4) % 80;
          screenY := screenY + 1;
          if screenY >= ROWS {
            ScrollOneLine(video);
            screenY := ROWS - 1;
          }
        }
      } else {
        WriteCell(video, 80 * screenY + screenX, c);
        screenX := screenX + 1;
        if screenX % 80 == 0 {
          screenY := screenY + 1;
        }
        if screenY >= ROWS {
          ScrollOneLine(video);
          screenY := ROWS - 1;
        }
        screenX := screenX % 80;
      }
    }

    method TerminalSpecialPutc(c1: Byte, c: Byte, t: nat)
      requires Separate() && t < 3 && OnScreen(Back(t))
      modifies positions, vidBuf[t]
      ensures Back(t) == Put(old(Back(t)), c1, c)
      ensures forall u :: 0 <= u < 3 && u != t ==> positions[u] == old(positions[u])
    {
      var page := vidBuf[t];
      var x, y := positions[t].x, positions[t].y;
      if c == NEWLINE || c == RETURN {
        y := y + 1;
        x := 0;
        if y >= ROWS {
          ScrollOneLine(page);
          y := ROWS - 1;
        }
      } else if c == BACKSPACE {
        if x == 0 && y == 0 {
          return;
        }
        if x == 0 && c1 != TAB {
          WriteCell(page, 80 * (y - 1) + 79, SPACE);
          x := 79;
          y := y - 1;
        } else if x > 0 && c1 != TAB {
          x := x - 1;
          WriteCell(page, 80 * y + x, SPACE);
        } else if 0 <= x < 4 && c1 == TAB {
          x := 80 + x - 4;
          y := y - 1;
        } else if x >= 4 && c1 == TAB {
          x := x - 4;
        }
      } else if c == TAB {
        if 0 <= x <= 76 {
          x := x + 4;
        } else if x > 76 {
          x := (x + 4) % 80;
          y := y + 1;
          if y >= ROWS {
            ScrollOneLine(page);
            y := ROWS - 1;
          }
        }
      } else {
        WriteCell(page, 80 * y + x, c);
        x := x + 1;
        if x % 80 == 0 {
          y := y + 1;
        }
        if y >= ROWS {
          ScrollOneLine(page);
          y := ROWS - 1;
        }
        x := x % 80;
      }
      positions[t] := Position(x, y);
    }

    /** The loop of terminal_write when its terminal is displayed. */
    method WriteFront(buffer: seq<Byte>)
      requires Separate() && OnScreen(Front())
      modifies this`screenX, this`screenY, video
      ensures Front() == Written(old(Front()), NUL, buffer)
    {
      ghost var before := Front();
      for i := 0 to |buffer|
        invariant After(Front(), if i == 0 then NUL else buffer[i - 1])
        invariant Front() == Written(before, NUL, buffer[..i])
      {
        var c1 := if i == 0 then NUL else buffer[i - 1];
        WrittenOneMore(before, NUL, buffer[..i], buffer[i]);
        PutStaysOnScreen(Front(), c1, buffer[i]);
        assert buffer[..i] + [buffer[i]] == buffer[..i + 1];
        SpecialPutc(c1, buffer[i]);
      }
      assert buffer[..|buffer|] == buffer;
    }

    /** The loop of terminal_write when its terminal is not displayed. */
    method WriteBack(buffer: seq<Byte>, t: nat)
      requires Separate() && t < 3 && OnScreen(Back(t))
      modifies positions, vidBuf[t]
      ensures Back(t) == Written(old(Back(t)), NUL, buffer)
      ensures forall u :: 0 <= u < 3 && u != t ==> positions[u] == old(positions[u])
    {
      ghost var before := Back(t);
      for i := 0 to |buffer|
        invariant After(Back(t), if i == 0 then NUL else buffer[i - 1])
        invariant Back(t) == Written(before, NUL, buffer[..i])
        invariant forall u :: 0 <= u < 3 && u != t ==> positions[u] == old(positions[u])
      {
        var c1 := if i == 0 then NUL else buffer[i - 1];
        WrittenOneMore(before, NUL, buffer[..i], buffer[i]);
        PutStaysOnScreen(Back(t), c1, buffer[i]);
        assert buffer[..i] + [buffer[i]] == buffer[..i + 1];
        TerminalSpecialPutc(c1, buffer[i], t);
      }
      assert buffer[..|buffer|] == buffer;
    }

    /** clear_screen: clear and init_screen. */
    method ClearScreen()
      requires Separate()
      modifies this`screenX, this`screenY, video
      ensures Front() == Cleared(old(Front()))
    {
      for i := 0 to 2000
        invariant forall j :: 0 <= j < 2 * i ==> video[j] == if j % 2 == 0 then SPACE else ATTRIBUTE
        invariant forall j :: 2 * i <= j < 4096 ==> video[j] == old(video[j])
      {
        video[2 * i] := SPACE;
        video[2 * i + 1] := ATTRIBUTE;
      }
      screenX, screenY := 0, 0;
      assert Front().page == Cleared(old(Front())).page;
    }

    /** Printing from terminal t changes that terminal's console by the same fold whether or not it is displayed. */
    method TerminalWrite(t: nat, buffer: seq<Byte>, nbytes: int) returns (r: int)
      requires Valid() && t < 3 && nbytes <= |buffer|
      modifies this`screenX, this`screenY, Memory()
      ensures Valid()
      ensures r == if nbytes < 0 then 0 else nbytes
      ensures Console(t) == Written(old(Console(t)), NUL, buffer[..r])
      ensures forall u :: 0 <= u < 3 && u != t ==> Console(u) == old(Console(u))
    {
      assert OnScreen(Console(t));
      r := if nbytes < 0 then 0 else nbytes;
      if curDisplayTid == t {
        WriteFront(buffer[..r]);
      } else {
        WriteBack(buffer[..r], t);
      }
      forall u | 0 <= u < 3 ensures OnScreen(Console(u)) {
        assert Console(u) == if u == t then Written(old(Console(t)), NUL, buffer[..r]) else old(Console(u));
        assert old(OnScreen(Console(u)));
      }
    }

    static method CopyPage(dst: array<Byte>, src: array<Byte>)
      requires dst.Length == src.Length == 4096 && dst != src
      modifies dst
      ensures dst[..] == src[..] == old(src[..])
    {
      forall k | 0 <= k < 4096 {
        dst[k] := src[k];
      }
    }

    /** The screen part of terminal_switch: every console keeps its picture and cursor; n is now displayed. */
    method SwitchScreen(n: nat)
      requires Valid() && n < 3 && n != curDisplayTid
      modifies this, Memory()
      ensures Valid() && curDisplayTid == n
      ensures forall t :: 0 <= t < 3 ==> Console(t) == old(Console(t))
    {
      ghost var was := curDisplayTid;
      positions[curDisplayTid] := Position(screenX, screenY);
      CopyPage(vidBuf[curDisplayTid], video);
      assert Back(was) == old(Console(was));
      curDisplayTid := n;
      CopyPage(video, vidBuf[n]);
      screenX, screenY := positions[n].x, positions[n].y;
      assert Back(was) == old(Console(was)) && Front() == Back(n) == old(Console(n));
      forall t | 0 <= t < 3 ensures OnScreen(Console(t)) {
        assert Console(t) == old(Console(t));
        assert old(OnScreen(Console(t)));
      }
    }
  }
}
