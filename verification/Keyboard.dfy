// The keyboard buffers of student-distrib/keyboard_handler.c and terminal.c: one buffer for the terminal in front,
// a saved copy of the line last ended by Enter, and one buffer for each terminal that is not in front.
module Keyboard {
  import opened Bytes
  import opened LineEditing

  class Keyboard {
    const keyboardBuffer: array<Byte>
    const savedKeyboardBuffer: array<Byte>
    const terminalBuffer: seq<array<Byte>>
    const terminalPosition: array<nat>
    const enterFlag: array<bool>
    var bufferPosition: nat
    var savedBufferPosition: nat
    var overflowBits: int
    var keys: Modifiers

    ghost predicate Separate() {
      && keyboardBuffer.Length == savedKeyboardBuffer.Length == 128 && keyboardBuffer != savedKeyboardBuffer
      && |terminalBuffer| == 3 && terminalPosition.Length == 3 && enterFlag.Length == 3
      && (forall t :: 0 <= t < 3 ==> terminalBuffer[t].Length == 128
                                     && terminalBuffer[t] != keyboardBuffer && terminalBuffer[t] != savedKeyboardBuffer)
      && (forall t, u :: 0 <= t < u < 3 ==> terminalBuffer[t] != terminalBuffer[u])
    }

    ghost function Memory(): set<object> {
      {keyboardBuffer, savedKeyboardBuffer, terminalPosition, enterFlag} + set b | b in terminalBuffer
    }

    ghost predicate Valid()
      reads this, Memory()
    {
      && Separate() && bufferPosition <= LINE && savedBufferPosition <= LINE + 1
      && forall t :: 0 <= t < 3 ==> terminalPosition[t] <= LINE
    }

    /** The line in the keyboard buffer; what backspace leaves behind it does not belong to it. */
    ghost function FrontLine(): seq<Byte>
      requires Separate() && bufferPosition <= LINE
      reads this, keyboardBuffer
    {
      keyboardBuffer[..bufferPosition]
    }

    /** The line put away for a terminal. */
    ghost function BackLine(t: nat): seq<Byte>
      requires t < 3 && Valid()
      reads this, Memory()
    {
      terminalBuffer[t][..terminalPosition[t]]
    }

    /** The line being typed at each terminal, when the given one is in front. */
    ghost function Line(t: nat, front: nat): seq<Byte>
      requires t < 3 && Valid()
      reads this, Memory()
    {
      if t == front then FrontLine() else BackLine(t)
    }

    ghost function Lines(front: nat): (r: seq<seq<Byte>>)
      requires Valid()
      reads this, Memory()
    {
      [Line(0, front), Line(1, front), Line(2, front)]
    }

    constructor ()
      ensures Valid() && fresh(Memory()) && keys == Modifiers(false, false, false, false)
      ensures bufferPosition == 0 && forall t :: 0 <= t < 3 ==> terminalPosition[t] == 0
    {
      keyboardBuffer := new Byte[128](_ => NUL);
      savedKeyboardBuffer := new Byte[128](_ => NUL);
      var b0 := new Byte[128](_ => NUL);
      var b1 := new Byte[128](_ => NUL);
      var b2 := new Byte[128](_ => NUL);
      terminalBuffer := [b0, b1, b2];
      terminalPosition := new nat[3](_ => 0);
      enterFlag := new bool[3](_ => false);
      bufferPosition, savedBufferPosition, overflowBits := 0, 0, 0;
      keys := Modifiers(false, false, false, false);
    }

    static method CopyBuffer(dst: array<Byte>, src: array<Byte>)
      requires dst.Length == src.Length == 128 && dst != src
      modifies dst
      ensures dst[..] == src[..] == old(src[..])
    {
      for i := 0 to 128
        invariant src[..] == old(src[..])
        invariant forall j :: 0 <= j < i ==> dst[j] == src[j]
      {
        dst[i] := src[i];
      }
    }

    static method ClearBuffer(b: array<Byte>)
      requires b.Length == 128
      modifies b
      ensures forall j :: 0 <= j < 128 ==> b[j] == NUL
    {
      for i := 0 to 128
        invariant forall j :: 0 <= j < i ==> b[j] == NUL
      {
        b[i] := NUL;
      }
    }

    method BufferClear()
      requires Separate()
      modifies this`bufferPosition, keyboardBuffer
      ensures bufferPosition == 0 && forall j :: 0 <= j < 128 ==> keyboardBuffer[j] == NUL
    {
      ClearBuffer(keyboardBuffer);
      bufferPosition := 0;
    }

    /** output_keyvalue: the line in front is edited as an ideal line editor would, and the echo is handed on. */
    method OutputKeyvalue(code: nat) returns (echo: Echo)
      requires Separate() && bufferPosition <= LINE && code < KEYS
      modifies this`bufferPosition, this`overflowBits, keyboardBuffer
      ensures bufferPosition <= LINE && FrontLine() == Edited(old(FrontLine()), keys, code)
      ensures overflowBits == Overflowed(old(FrontLine()), old(overflowBits), keys, code)
      ensures echo == EchoOf(old(FrontLine()), old(overflowBits), keys, code)
    {
      hide Letter;
      ghost var line := FrontLine();
      if Letter(false, false, code) == BACKSPACE {
        if bufferPosition != 0 {
          var temp := keyboardBuffer[bufferPosition - 1];
          keyboardBuffer[bufferPosition] := NUL;
          bufferPosition := bufferPosition - 1;
          assert FrontLine() == line[..|line| - 1];
          return Prints(temp, BACKSPACE);
        }
        if overflowBits != 0 {
          overflowBits := overflowBits - 1;
          return Prints(NUL, BACKSPACE);
        }
        return Silent;
      }
      if code == 0x3A || code == 0x38 {
        return Silent;
      }
      if Letter(false, false, code) == 0x6C && keys.ctrl {
        return ClearsScreen;
      }
      var letter := Letter(keys.caps, keys.shift, code);
      echo := Silent;
      if letter != NUL {
        if bufferPosition < LINE {
          keyboardBuffer[bufferPosition] := letter;
          bufferPosition := bufferPosition + 1;
          assert FrontLine() == line + [letter];
        } else {
          overflowBits := overflowBits + 1;
        }
        echo := Prints(NUL, letter);
      }
    }

    /** Enter: the line is saved for the reader in front, and the keyboard buffer starts over with the newline. */
    method Enter(front: nat) returns (echo: Echo)
      requires Separate() && bufferPosition <= LINE && front < 3
      modifies this`bufferPosition, this`savedBufferPosition, this`overflowBits, keyboardBuffer, savedKeyboardBuffer,
               enterFlag
      ensures bufferPosition <= LINE && FrontLine() == Edited([], keys, ENTER as int)
      ensures overflowBits == Overflowed([], 0, keys, ENTER as int)
      ensures savedBufferPosition <= LINE && savedKeyboardBuffer[..savedBufferPosition] == old(FrontLine())
      ensures enterFlag[..] == old(enterFlag[..])[front := true]
      ensures echo == Prints(NUL, NEWLINE)
    {
      hide Letter;
      OnlyEnterTypesNewline(false, false, ENTER as int);
      OnlyEnterTypesNewline(keys.caps, keys.shift, ENTER as int);
      overflowBits := 0;
      enterFlag[front] := true;
      CopyBuffer(savedKeyboardBuffer, keyboardBuffer);
      savedBufferPosition := bufferPosition;
      assert savedKeyboardBuffer[..savedBufferPosition] == savedKeyboardBuffer[..][..savedBufferPosition];
      BufferClear();
      echo := OutputKeyvalue(ENTER as int);
    }

    /** keyboard_handler for a scan code that is not Enter: the terminal it asks for, or one stroke of line editing. */
    method Press(code: Byte) returns (switch: Option<nat>, echo: Echo)
      requires Separate() && bufferPosition <= LINE && code != ENTER
      modifies this`keys, this`bufferPosition, this`overflowBits, keyboardBuffer
      ensures bufferPosition <= LINE
      ensures var released := Released(old(keys), code);
              && switch == SwitchTo(released, code)
              && keys == (if switch.Some? || code >= KEYS then released else Pressed(released, code))
              && FrontLine() == if switch.Some? || code >= KEYS then old(FrontLine())
                                else Edited(old(FrontLine()), keys, code as int)
      ensures overflowBits == if switch.Some? || code >= KEYS then old(overflowBits)
                              else Overflowed(old(FrontLine()), old(overflowBits), keys, code as int)
      ensures echo == if switch.Some? || code >= KEYS then Silent
                      else EchoOf(old(FrontLine()), old(overflowBits), keys, code as int)
    {
      hide Letter;
      switch, echo := None, Silent;
      if code == 0xAA || code == 0xB6 {
        keys := keys.(shift := false);
      }
      if code == 0x9D {
        keys := keys.(ctrl := false);
      }
      if code == 0xB8 {
        keys := keys.(alt := false);
      }
      if keys.alt && code == 0x3B {
        return Some(0), Silent;
      } else if keys.alt && code == 0x3C {
        return Some(1), Silent;
      } else if keys.alt && code == 0x3D {
        return Some(2), Silent;
      }
      if code < KEYS {
        if code == 0x3A {
          keys := keys.(caps := !keys.caps);
        } else if code == 0x2A || code == 0x36 {
          keys := keys.(shift := true);
        } else if code == 0x1D {
          keys := keys.(ctrl := true);
        } else if code == 0x38 {
          keys := keys.(alt := true);
        }
        echo := OutputKeyvalue(code as int);
      }
    }

    /** The keyboard part of terminal_switch: the line in front is put away and the new terminal's brought out. */
    method SwitchBuffers(from: nat, to: nat)
      requires Valid() && from < 3 && to < 3 && from != to
      modifies this`bufferPosition, keyboardBuffer, terminalPosition, terminalBuffer[from]
      ensures Valid()
      ensures terminalBuffer[from][..] == old(keyboardBuffer[..]) && keyboardBuffer[..] == old(terminalBuffer[to][..])
      ensures forall t :: 0 <= t < 3 ==> Line(t, to) == old(Line(t, from))
    {
      terminalPosition[from] := bufferPosition;
      CopyBuffer(terminalBuffer[from], keyboardBuffer);
      assert terminalBuffer[from][..terminalPosition[from]] == terminalBuffer[from][..][..terminalPosition[from]];
      BufferClear();
      CopyBuffer(keyboardBuffer, terminalBuffer[to]);
      bufferPosition := terminalPosition[to];
      assert keyboardBuffer[..bufferPosition] == keyboardBuffer[..][..bufferPosition];
      assert terminalBuffer[to][..bufferPosition] == terminalBuffer[to][..][..bufferPosition];
    }

    /**
     * terminal_read once Enter has been seen: delivers the saved bytes up to their first newline or the one it puts
     * behind them, and clears the buffers. A saved line that fills its buffer would have the newline put past its end.
     */
    method TerminalRead(t: nat, buffer: array<Byte>, nbytes: int) returns (r: nat)
      requires Valid() && t < 3 && enterFlag[t] && savedBufferPosition <= LINE
      requires buffer !in Memory() && buffer.Length >= Min(Limit(nbytes), savedBufferPosition + 1)
      modifies this`bufferPosition, this`savedBufferPosition, keyboardBuffer, savedKeyboardBuffer, terminalBuffer[t],
               terminalPosition, enterFlag, buffer
      ensures Valid() && bufferPosition == 0 && terminalPosition[t] == 0
      ensures forall j :: 0 <= j < 128 ==> keyboardBuffer[j] == NUL && terminalBuffer[t][j] == NUL
      ensures savedBufferPosition == old(savedBufferPosition) + 1
      ensures savedKeyboardBuffer[..savedBufferPosition] == old(savedKeyboardBuffer[..savedBufferPosition]) + [NEWLINE]
      ensures enterFlag[..] == old(enterFlag[..])[t := false]
      ensures forall u :: 0 <= u < 3 && u != t ==> terminalPosition[u] == old(terminalPosition[u])
      ensures r <= buffer.Length && (nbytes >= 1 ==> r <= nbytes)
      ensures buffer[..r] == Delivered(FirstLine(old(savedKeyboardBuffer[..savedBufferPosition])), nbytes)
    {
      ghost var line := savedKeyboardBuffer[..savedBufferPosition];
      savedKeyboardBuffer[savedBufferPosition] := NEWLINE;
      savedBufferPosition := savedBufferPosition + 1;
      assert savedKeyboardBuffer[..savedBufferPosition] == line + [NEWLINE];
      r := CopyOut(buffer, line, nbytes);
      enterFlag[t] := false;
      BufferClear();
      ClearBuffer(terminalBuffer[t]);
      terminalPosition[t] := 0;
    }

    /** A turn of terminal_read: it waits, with nothing changed, until Enter has been seen at its terminal. */
    method ReadTurn(t: nat, buffer: array<Byte>, nbytes: int) returns (r: Option<nat>)
      requires Valid() && t < 3 && buffer !in Memory()
      requires enterFlag[t] ==>
                 savedBufferPosition <= LINE && buffer.Length >= Min(Limit(nbytes), savedBufferPosition + 1)
      modifies this`bufferPosition, this`savedBufferPosition, keyboardBuffer, savedKeyboardBuffer, terminalBuffer[t],
               terminalPosition, enterFlag, buffer
      ensures Valid() && (r.Some? <==> old(enterFlag[t]))
      ensures r.None? ==> unchanged(this) && unchanged(Memory()) && unchanged(buffer)
      ensures r.Some? ==>
                && (forall f :: 0 <= f < 3 ==> Lines(f) == old(Lines(f))[f := []][t := []])
                && savedBufferPosition == old(savedBufferPosition) + 1 <= 128
                && savedKeyboardBuffer[..savedBufferPosition]
                   == old(savedKeyboardBuffer[..savedBufferPosition]) + [NEWLINE]
                && enterFlag[..] == old(enterFlag[..])[t := false]
                && r.value <= buffer.Length && (nbytes >= 1 ==> r.value <= nbytes)
                && buffer[..r.value] == Delivered(FirstLine(old(savedKeyboardBuffer[..savedBufferPosition])), nbytes)
    {
      if !enterFlag[t] {
        return None;
      }
      var n := TerminalRead(t, buffer, nbytes);
      assert forall u :: 0 <= u < 3 && u != t ==> BackLine(u) == old(BackLine(u));
      r := Some(n);
    }

    /** The copy loop of terminal_read. */
    method CopyOut(buffer: array<Byte>, ghost line: seq<Byte>, nbytes: int) returns (r: nat)
      requires Separate() && |line| <= LINE && savedKeyboardBuffer[..|line| + 1] == line + [NEWLINE]
      requires buffer !in Memory() && buffer.Length >= Min(Limit(nbytes), |line| + 1)
      modifies buffer
      ensures r <= buffer.Length && buffer[..r] == Delivered(FirstLine(line), nbytes) && (nbytes >= 1 ==> r <= nbytes)
    {
      ghost var whole := line + [NEWLINE];
      r := 0;
      for i := 0 to 128
        invariant i <= |line| && NEWLINE !in line[..i] && (nbytes >= 1 ==> i < nbytes) && r == 0
        invariant buffer[..i] == whole[..i]
      {
        assert savedKeyboardBuffer[i] == savedKeyboardBuffer[..|line| + 1][i] == whole[i];
        buffer[i] := savedKeyboardBuffer[i];
        assert buffer[..i + 1] == buffer[..i] + [whole[i]];
        if savedKeyboardBuffer[i] == NEWLINE || i == nbytes - 1 {
          if i < |line| && line[i] != NEWLINE {
            assert line[..i + 1] == line[..i] + [line[i]];
            CopiedToSize(line, i + 1, nbytes);
          } else {
            CopiedToNewline(line, i, nbytes);
            assert whole[..i + 1] == whole[..i] + [NEWLINE] && whole[..i] == line[..i];
          }
          return i + 1;
        }
        assert whole[..i + 1] == whole[..i] + [whole[i]];
        assert i < |line| ==> line[..i + 1] == line[..i] + [line[i]];
      }
    }
  }
}
