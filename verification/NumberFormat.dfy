// Numbers in text: itoa, strrev and the %#x conversion of student-distrib/lib.c, whose first two the user library
// syscalls/ece391support.c repeats.
module NumberFormat {
  import opened Bytes
  import opened CStrings

  // ---- Positional notation ----

  /** The digits 0-9 then A-Z. */
  function Digit(d: nat): Byte
    requires d < 36
  {
    if d < 10 then ZERO + d else 0x41 + (d - 10)
  }

  /** What a character counts for in any radix above it; 36 for no digit at all. */
  function DigitValue(c: Byte): (d: nat)
    ensures d <= 36
  {
    if ZERO <= c < ZERO + 10 then c - ZERO else if 0x41 <= c < 0x41 + 26 then c - 0x41 + 10 else 36
  }

  predicate Numeral(s: seq<Byte>, radix: nat) {
    forall i :: 0 <= i < |s| ==> DigitValue(s[i]) < radix
  }

  /** The number a numeral stands for, read from the left. */
  function Value(s: seq<Byte>, radix: nat): nat {
    if s == [] then 0 else Value(s[..|s| - 1], radix) * radix + DigitValue(s[|s| - 1])
  }

  /** A number's numeral, most significant digit first. */
  function Digits(value: nat, radix: nat): (s: seq<Byte>)
    requires 2 <= radix <= 36
    ensures s != []
    decreases value
  {
    if value < radix then [Digit(value)]
    else
      Shrinks(value, radix);
      Digits(value / radix, radix) + [Digit(value % radix)]
  }

  lemma Shrinks(value: nat, radix: nat)
    requires radix >= 2
    ensures value > 0 ==> value / radix < value
    ensures value >= radix ==> value / radix > 0
    ensures value == value / radix * radix + value % radix
  {
    var q := value / radix;
    assert value == q * radix + value % radix;
    assert q >= 1 ==> (radix - 2) * q >= 0;
  }

  lemma DigitsAreCharacters(d: nat)
    requires d < 36
    ensures Digit(d) == "0123456789ABCDEFGHIJKLMNOPQRSTUVWXYZ"[d] as int
  {
  }

  lemma DigitBack(d: nat)
    requires d < 36
    ensures DigitValue(Digit(d)) == d && Digit(d) != NUL
  {
  }

  /** The numeral stands for the number, uses only digits of the radix, and starts with 0 only for zero itself. */
  lemma {:induction false} DigitsStandForValue(value: nat, radix: nat)
    requires 2 <= radix <= 36
    ensures Value(Digits(value, radix), radix) == value
    ensures Numeral(Digits(value, radix), radix) && NUL !in Digits(value, radix)
    ensures Digits(value, radix)[0] == ZERO <==> value == 0
    decreases value
  {
    var s := Digits(value, radix);
    if value < radix {
      DigitBack(value);
      assert s[..0] == [];
    } else {
      Shrinks(value, radix);
      DigitBack(value % radix);
      DigitsStandForValue(value / radix, radix);
      assert s[..|s| - 1] == Digits(value / radix, radix);
    }
  }

  /** No other numeral without a leading 0 stands for that number. */
  lemma {:induction false} NumeralIsDigits(s: seq<Byte>, radix: nat)
    requires 2 <= radix <= 36 && s != [] && Numeral(s, radix) && (s[0] == ZERO ==> |s| == 1)
    ensures Digits(Value(s, radix), radix) == s
  {
    var init, last := s[..|s| - 1], s[|s| - 1];
    assert DigitValue(last) < radix && Digit(DigitValue(last)) == last;
    if init == [] {
      assert s == [last];
    } else {
      assert init[0] == s[0];
      NumeralIsDigits(init, radix);
      DigitsStandForValue(Value(init, radix), radix);
      SplitsBack(Value(init, radix), DigitValue(last), radix);
      assert s == init + [last];
    }
  }

  lemma SplitsBack(high: nat, low: nat, radix: nat)
    requires low < radix && high > 0
    ensures (high * radix + low) / radix == high && (high * radix + low) % radix == low && high * radix + low >= radix
  {
    var n := high * radix + low;
    var x: int := n / radix - high;
    assert x * radix == n / radix * radix - high * radix == low - n % radix;
    assert x >= 1 ==> (x - 1) * radix >= 0;
    assert x <= -1 ==> (-1 - x) * radix >= 0;
    assert (high - 1) * radix >= 0;
  }

  function Pow(radix: nat, k: nat): nat {
    if k == 0 then 1 else radix * Pow(radix, k - 1)
  }

  lemma DivisionBelow(value: nat, radix: nat, bound: nat)
    requires radix >= 2 && value < radix * bound
    ensures value / radix < bound
  {
    var q := value / radix;
    assert value == q * radix + value % radix;
    assert q >= bound ==> (q - bound) * radix >= 0;
  }

  lemma {:induction false} DigitsFit(value: nat, radix: nat, k: nat)
    requires 2 <= radix <= 36 && value < Pow(radix, k) && k > 0
    ensures |Digits(value, radix)| <= k
    decreases k
  {
    if value >= radix {
      Shrinks(value, radix);
      DivisionBelow(value, radix, Pow(radix, k - 1));
      assert Pow(radix, 0) == 1;
      DigitsFit(value / radix, radix, k - 1);
    }
  }

  lemma {:induction false} PowGrows(radix: nat, k: nat)
    requires radix >= 2
    ensures Pow(radix, k) >= Pow(2, k)
  {
    if k > 0 {
      PowGrows(radix, k - 1);
      assert radix * Pow(radix, k - 1) >= 2 * Pow(radix, k - 1);
    }
  }

  /** Any 32-bit number has at most 32 digits; in hexadecimal it has at most 8. */
  lemma DigitsOf32Bits(value: nat, radix: nat)
    requires 2 <= radix <= 36 && value < 0x1_0000_0000
    ensures |Digits(value, radix)| <= 32
    ensures radix == 16 ==> |Digits(value, radix)| <= 8
  {
    assert Pow(2, 8) == 0x100;
    assert Pow(2, 16) == 0x1_0000;
    assert Pow(2, 24) == 0x100_0000;
    assert Pow(2, 32) == 0x1_0000_0000;
    PowGrows(radix, 32);
    DigitsFit(value, radix, 32);
    if radix == 16 {
      assert Pow(16, 8) == 0x1_0000_0000;
      DigitsFit(value, 16, 8);
    }
  }

  // ---- strrev ----

  function Reversed(s: seq<Byte>): (r: seq<Byte>)
    ensures |r| == |s| && forall i :: 0 <= i < |s| ==> r[i] == s[|s| - 1 - i]
  {
    seq(|s|, i requires 0 <= i < |s| => s[|s| - 1 - i])
  }

  /** The swapping loop: from both ends of a stretch towards its middle. */
  method ReverseStretch(s: array<Byte>, at: nat, len: nat)
    requires at + len <= s.Length
    modifies s
    ensures s[at..at + len] == Reversed(old(s[at..at + len]))
    ensures forall j :: 0 <= j < s.Length && !(at <= j < at + len) ==> s[j] == old(s[j])
  {
    var beg, end: int := 0, len - 1;
    while beg < end
      invariant 0 <= beg && end == len - 1 - beg && beg <= end + 2
      invariant forall j :: at <= j < at + len ==>
                  s[j] == if beg <= j - at <= end then old(s[j]) else old(s[at + at + len - 1 - j])
      invariant forall j :: 0 <= j < s.Length && !(at <= j < at + len) ==> s[j] == old(s[j])
    {
      var tmp := s[at + end];
      s[at + end] := s[at + beg];
      s[at + beg] := tmp;
      beg, end := beg + 1, end - 1;
    }
  }

  method StrRev(s: array<Byte>, at: nat)
    requires at <= s.Length && NUL in s[at..]
    modifies s
    ensures var n := |Text(old(s[at..]))|;
            at + n <= s.Length && s[at..at + n] == Reversed(Text(old(s[at..])))
            && s[..at] == old(s[..at]) && s[at + n..] == old(s[at + n..])
  {
    TextIsPrefix(s[at..]);
    var len := StrLen(s[at..]);
    assert s[at..][..len] == s[at..at + len];
    ReverseStretch(s, at, len);
  }

  // ---- itoa ----

  /** The digits in the order the loop produces them. */
  function LowFirst(value: nat, radix: nat): (s: seq<Byte>)
    requires 2 <= radix <= 36
    ensures value == 0 <==> s == []
    decreases value
  {
    if value == 0 then [] else
      Shrinks(value, radix);
      [Digit(value % radix)] + LowFirst(value / radix, radix)
  }

  lemma SmallDivision(value: nat, radix: nat)
    requires value < radix
    ensures value / radix == 0 && value % radix == value
  {
    var q := value / radix;
    assert value == q * radix + value % radix;
    assert q >= 1 ==> (q - 1) * radix >= 0;
  }

  lemma {:induction false} LowFirstReversed(value: nat, radix: nat)
    requires 2 <= radix <= 36 && value > 0
    ensures Reversed(LowFirst(value, radix)) == Digits(value, radix)
            && |LowFirst(value, radix)| == |Digits(value, radix)|
    decreases value
  {
    Shrinks(value, radix);
    if value >= radix {
      LowFirstReversed(value / radix, radix);
      assert Reversed(LowFirst(value, radix)) == Reversed(LowFirst(value / radix, radix)) + [Digit(value % radix)];
    } else {
      SmallDivision(value, radix);
      assert LowFirst(value, radix) == [Digit(value)];
    }
  }

  /** Writes the number's numeral at a place in a buffer, and a NUL behind it. */
  method Itoa(value: nat, buf: array<Byte>, at: nat, radix: nat)
    requires value < 0x1_0000_0000 && 2 <= radix <= 36 && at + |Digits(value, radix)| < buf.Length
    modifies buf
    ensures var n := |Digits(value, radix)|;
            buf[at..at + n] == Digits(value, radix) && buf[at + n] == NUL && buf[..at] == old(buf[..at])
  {
    hide LowFirst, Text, Reversed;
    if value == 0 {
      buf[at], buf[at + 1] := ZERO, NUL;
      return;
    }
    LowFirstReversed(value, radix);
    var n := EmitDigits(value, buf, at, radix);
    buf[at + n] := NUL;
    DigitsStandForValue(value, radix);
    ReversedKeepsOut(LowFirst(value, radix));
    TextIs(buf[at..], n);
    assert buf[at..][..n] == buf[at..at + n];
    StrRev(buf, at);
  }

  lemma LowFirstStep(value: nat, radix: nat)
    requires 2 <= radix <= 36 && value > 0
    ensures value / radix < value && 0 <= value % radix < radix
    ensures LowFirst(value, radix)[0] == Digit(value % radix)
            && LowFirst(value, radix)[1..] == LowFirst(value / radix, radix)
  {
    Shrinks(value, radix);
  }

  /** The digit loop, lowest place value first. */
  method EmitDigits(value: nat, buf: array<Byte>, at: nat, radix: nat) returns (n: nat)
    requires 2 <= radix <= 36 && at + |LowFirst(value, radix)| <= buf.Length
    modifies buf
    ensures n == |LowFirst(value, radix)| && buf[at..at + n] == LowFirst(value, radix)
    ensures buf[..at] == old(buf[..at])
  {
    hide LowFirst, Digit;
    n := 0;
    var newval: nat := value;
    while newval > 0
      invariant at + n + |LowFirst(newval, radix)| <= buf.Length
      invariant buf[at..at + n] + LowFirst(newval, radix) == LowFirst(value, radix)
      invariant buf[..at] == old(buf[..at])
      decreases newval
    {
      ghost var done, low := buf[at..at + n], LowFirst(newval, radix);
      LowFirstStep(newval, radix);
      var digit, next: nat := Digit(newval % radix), newval / radix;
      buf[at + n] := digit;
      assert buf[at..at + n + 1] == done + [digit];
      assert done + low == done + [digit] + low[1..];
      newval := next;
      n := n + 1;
    }
  }

  lemma ReversedKeepsOut(s: seq<Byte>)
    requires NUL !in Reversed(s)
    ensures NUL !in s
  {
    assert forall i :: 0 <= i < |s| ==> s[i] == Reversed(s)[|s| - 1 - i];
  }

  // ---- %#x ----

  lemma {:induction false} ZerosInFront(k: nat, s: seq<Byte>, radix: nat)
    ensures Value(seq(k, _ => ZERO) + s, radix) == Value(s, radix)
  {
    var t := seq(k, _ => ZERO) + s;
    if s != [] {
      assert t[..|t| - 1] == seq(k, _ => ZERO) + s[..|s| - 1];
      ZerosInFront(k, s[..|s| - 1], radix);
    } else if k > 0 {
      assert t[..|t| - 1] == seq(k - 1, _ => ZERO) + s;
      ZerosInFront(k - 1, s, radix);
    }
  }

  /** %#x: always eight hexadecimal digits, and they stand for the argument. */
  method FormatHex(value: nat) returns (out: seq<Byte>)
    requires value < 0x1_0000_0000
    ensures |out| == 8 && Numeral(out, 16) && Value(out, 16) == value
  {
    hide Text, Digits, Value;
    DigitsOf32Bits(value, 16);
    DigitsStandForValue(value, 16);
    ghost var digits := Digits(value, 16);
    var convBuf := new Byte[64];
    Itoa(value, convBuf, 8, 16);
    assert convBuf[8..][..|digits|] == convBuf[8..8 + |digits|] == digits;
    TextIs(convBuf[8..], |digits|);
    var startingIndex := StrLen(convBuf[8..]);
    ghost var before := convBuf[..];
    FillZeros(convBuf, startingIndex, 8);
    ghost var shown := seq(8 - startingIndex, _ => ZERO) + digits;
    assert convBuf[startingIndex..][..8] == shown && convBuf[startingIndex..][8] == before[8 + startingIndex] == NUL;
    TextIs(convBuf[startingIndex..], 8);
    var n := StrLen(convBuf[startingIndex..]);
    out := convBuf[startingIndex..][..n];
    ZerosInFront(8 - startingIndex, digits, 16);
    assert out == shown;
  }

  method FillZeros(buf: array<Byte>, from: nat, to: nat)
    requires from <= to <= buf.Length
    modifies buf
    ensures forall j :: 0 <= j < buf.Length ==> buf[j] == if from <= j < to then ZERO else old(buf[j])
  {
    var i := from;
    while i < to
      invariant from <= i <= to
      invariant forall j :: 0 <= j < buf.Length ==> buf[j] == if from <= j < i then ZERO else old(buf[j])
    {
      buf[i] := ZERO;
      i := i + 1;
    }
  }
}
