// The four layouts of the keyboard against a list of which key types which character.
module KeyMap {
  import opened Bytes
  import opened LineEditing

  // ---- Letters ----

  /** One key in the four layouts: a letter turns into its capital with either lock or shift, and back with both. */
  predicate Capitalises(plain: char, caps: char, shift: char, both: char) {
    if 'a' <= plain <= 'z' then caps == shift && caps as int == plain as int - 0x20 && both == plain
    else caps == plain
  }

  lemma UpperRowCapitalises(i: nat)
    requires i < 14
    ensures Capitalises(UpperRow(false, false)[i], UpperRow(true, false)[i], UpperRow(false, true)[i],
                        UpperRow(true, true)[i])
  {
    hide PrintsInLine;
  }

  lemma HomeRowCapitalises(i: nat)
    requires i < 14
    ensures Capitalises(HomeRow(false, false)[i], HomeRow(true, false)[i], HomeRow(false, true)[i],
                        HomeRow(true, true)[i])
  {
    hide PrintsInLine;
  }

  lemma LowerRowCapitalises(i: nat)
    requires i < 18
    ensures Capitalises(LowerRow(false, false)[i], LowerRow(true, false)[i], LowerRow(false, true)[i],
                        LowerRow(true, true)[i])
  {
    hide PrintsInLine;
  }

  lemma NumberRowHasNoLetters(shift: bool, i: nat)
    requires i < 14
    ensures !('a' <= NumberRow(shift)[i] <= 'z') && !('A' <= NumberRow(shift)[i] <= 'Z')
  {
    hide PrintsInLine;
  }

  /** A key whose plain byte is a letter. */
  predicate IsLetter(code: nat)
    requires code < KEYS
  {
    0x61 <= Letter(false, false, code) <= 0x7A
  }

  /**
   * Shift and Caps Lock each make the capital of a letter, and together undo each other; Caps Lock by itself changes no
   * other key.
   */
  lemma CapitalsOfLetters(code: nat)
    requires code < KEYS
    ensures if IsLetter(code) then
              && Letter(true, false, code) == Letter(false, true, code) == Letter(false, false, code) - 0x20
              && Letter(true, true, code) == Letter(false, false, code)
            else Letter(true, false, code) == Letter(false, false, code)
  {
    hide NumberRow, UpperRow, HomeRow, LowerRow, PrintsInLine;
    if code < 14 {
      NumberRowHasNoLetters(false, code);
    } else if code < 28 {
      UpperRowCapitalises(code - 14);
    } else if code < 42 {
      HomeRowCapitalises(code - 28);
    } else {
      LowerRowCapitalises(code - 42);
    }
  }

  // ---- Which key types a character ----

  /** The key that types a small letter. */
  function LetterKey(c: char): nat {
    match c
    case 'q' => 16
    case 'w' => 17
    case 'e' => 18
    case 'r' => 19
    case 't' => 20
    case 'y' => 21
    case 'u' => 22
    case 'i' => 23
    case 'o' => 24
    case 'p' => 25
    case 'a' => 30
    case 's' => 31
    case 'd' => 32
    case 'f' => 33
    case 'g' => 34
    case 'h' => 35
    case 'j' => 36
    case 'k' => 37
    case 'l' => 38
    case 'z' => 44
    case 'x' => 45
    case 'c' => 46
    case 'v' => 47
    case 'b' => 48
    case 'n' => 49
    case 'm' => 50
    case _ => 0
  }

  /** The key that types any other character, the star being that of the keypad. */
  function SignKey(c: char): nat {
    match c
    case '\U{0008}' => 14
    case '\t' => 15
    case '[' | '{' => 26
    case ']' | '}' => 27
    case '\n' => 28
    case ';' | ':' => 39
    case '\'' | '\"' => 40
    case '`' | '~' => 41
    case '\\' | '|' => 43
    case ',' | '<' => 51
    case '.' | '>' => 52
    case '/' | '?' => 53
    case '*' => 55
    case ' ' => 57
    case '1' | '!' => 2
    case '2' | '@' => 3
    case '3' | '#' => 4
    case '4' | '$' => 5
    case '5' | '%' => 6
    case '6' | '^' => 7
    case '7' | '&' => 8
    case '8' => 9
    case '9' | '(' => 10
    case '0' | ')' => 11
    case '-' | '_' => 12
    case '=' | '+' => 13
    case _ => 0
  }

  function KeyOf(c: char): nat {
    if 'A' <= c <= 'Z' then LetterKey((c as int + 0x20) as char)
    else if 'a' <= c <= 'z' then LetterKey(c)
    else SignKey(c)
  }

  lemma UpperRowLetters(i: nat)
    requires 2 <= i < 12
    ensures 'a' <= UpperRow(false, false)[i] <= 'z' && LetterKey(UpperRow(false, false)[i]) == i + 14
  {
    hide PrintsInLine;
  }

  lemma HomeRowLetters(i: nat)
    requires 2 <= i < 11
    ensures 'a' <= HomeRow(false, false)[i] <= 'z' && LetterKey(HomeRow(false, false)[i]) == i + 28
  {
    hide PrintsInLine;
  }

  lemma LowerRowLetters(i: nat)
    requires 2 <= i < 9
    ensures 'a' <= LowerRow(false, false)[i] <= 'z' && LetterKey(LowerRow(false, false)[i]) == i + 42
  {
    hide PrintsInLine;
  }

  lemma NumberRowSigns(i: nat)
    requires i < 14
    ensures NumberRow(false)[i] == '\0' || SignKey(NumberRow(false)[i]) == i
  {
    hide PrintsInLine;
  }

  lemma ShiftedNumberRowSigns(i: nat)
    requires i < 14 && i != 9
    ensures NumberRow(true)[i] == '\0' || SignKey(NumberRow(true)[i]) == i
  {
    hide PrintsInLine;
  }

  lemma UpperRowSigns(caps: bool, shift: bool, i: nat)
    requires i < 14 && !(2 <= i < 12)
    ensures KeyOf(UpperRow(caps, shift)[i]) == i + 14
  {
    hide PrintsInLine;
  }

  lemma HomeRowSigns(caps: bool, shift: bool, i: nat)
    requires i < 14 && !(2 <= i < 11)
    ensures HomeRow(caps, shift)[i] == '\0' || KeyOf(HomeRow(caps, shift)[i]) == i + 28
  {
    hide PrintsInLine;
  }

  lemma LowerRowSigns(caps: bool, shift: bool, i: nat)
    requires i < 18 && !(2 <= i < 9)
    ensures LowerRow(caps, shift)[i] == '\0' || KeyOf(LowerRow(caps, shift)[i]) == i + 42
  {
    hide PrintsInLine;
  }

  lemma StarTwice(caps: bool)
    ensures Letter(caps, true, 9) == Letter(caps, true, 0x37) == 0x2A
  {
    hide PrintsInLine;
  }

  /** A key that types a letter without modifiers types it, or its capital, with any. */
  lemma LetterKeyIs(caps: bool, shift: bool, code: nat)
    requires code < KEYS && 'a' <= Character(false, false, code) <= 'z'
    requires LetterKey(Character(false, false, code)) == code
    ensures KeyOf(Character(caps, shift, code)) == code
  {
    hide NumberRow, UpperRow, HomeRow, LowerRow, PrintsInLine, LetterKey, SignKey;
    CapitalsOfLetters(code);
    assert Character(caps, shift, code) as int == Letter(caps, shift, code);
    assert Letter(false, true, code) == Letter(true, false, code) == Letter(false, false, code) - 0x20;
  }

  /** In every layout the character a key types leads back to the key, but for 8 with Shift. */
  lemma KeyOfCharacter(caps: bool, shift: bool, code: nat)
    requires code < KEYS && Letter(caps, shift, code) != NUL && !(shift && code == 9)
    ensures KeyOf(Character(caps, shift, code)) == code
  {
    hide NumberRow, UpperRow, HomeRow, LowerRow, PrintsInLine, LetterKey, SignKey;
    if code < 14 {
      if shift {
        ShiftedNumberRowSigns(code);
      } else {
        NumberRowSigns(code);
      }
      NumberRowHasNoLetters(shift, code);
    } else if 16 <= code < 26 {
      UpperRowLetters(code - 14);
      LetterKeyIs(caps, shift, code);
    } else if code < 28 {
      UpperRowSigns(caps, shift, code - 14);
    } else if 30 <= code < 39 {
      HomeRowLetters(code - 28);
      LetterKeyIs(caps, shift, code);
    } else if code < 42 {
      HomeRowSigns(caps, shift, code - 28);
    } else if 44 <= code < 51 {
      LowerRowLetters(code - 42);
      LetterKeyIs(caps, shift, code);
    } else {
      LowerRowSigns(caps, shift, code - 42);
    }
  }

  /** Ctrl with the L key, and nothing else, clears the screen, whatever the other modifiers. */
  lemma ClearsOnCtrlL(line: seq<Byte>, overflow: int, m: Modifiers, code: nat)
    requires code < KEYS && |line| <= LINE
    ensures EchoOf(line, overflow, m, code).ClearsScreen? <==> m.ctrl && code == LetterKey('l')
  {
    hide NumberRow, UpperRow, HomeRow, LowerRow, PrintsInLine;
    HomeRowLetters(10);
    assert HomeRow(false, false)[10] == 'l' by {
      LIsThere();
    }
    if Letter(false, false, code) == 0x6C {
      KeyOfCharacter(false, false, code);
    }
  }

  lemma LIsThere()
    ensures HomeRow(false, false)[10] == 'l'
  {
    hide PrintsInLine;
  }

  /** So in every layout no two keys type the same byte, but 8 with Shift and the star of the keypad. */
  lemma KeysStayApart(caps: bool, shift: bool, a: nat, b: nat)
    requires a < b < KEYS && Letter(caps, shift, a) != NUL
    ensures Letter(caps, shift, a) == Letter(caps, shift, b) <==> shift && a == 9 && b == 0x37
  {
    hide NumberRow, UpperRow, HomeRow, LowerRow, PrintsInLine, KeyOf, Character;
    if shift {
      StarTwice(caps);
    }
    if Letter(caps, shift, a) == Letter(caps, shift, b) {
      if shift && a == 9 {
        KeyOfCharacter(caps, shift, 0x37);
        KeyOfCharacter(caps, shift, b);
      } else if shift && b == 9 {
        KeyOfCharacter(caps, shift, 0x37);
        KeyOfCharacter(caps, shift, a);
      } else {
        KeyOfCharacter(caps, shift, a);
        KeyOfCharacter(caps, shift, b);
      }
    }
  }
}
