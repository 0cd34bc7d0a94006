// Bytes and the control characters the kernel tests for by name.
module Bytes {
  type Byte = b: int | 0 <= b < 256

  const NUL: Byte := 0
  const BACKSPACE: Byte := 8
  const TAB: Byte := 9
  const NEWLINE: Byte := 10
  const RETURN: Byte := 13
  const SPACE: Byte := 32
  const ZERO: Byte := 48

  datatype Option<+T> = None | Some(value: T) {
    function GetOr(default: T): T {
      if Some? then value else default
    }
  }

  /** The number a 32-bit register holds after an addition or a conversion. */
  function Wrap32(n: int): int {
    n % 0x1_0000_0000
  }

  /** The same bits read as a signed 32-bit number. */
  function Signed32(n: int): int {
    if Wrap32(n) < 0x8000_0000 then Wrap32(n) else Wrap32(n) - 0x1_0000_0000
  }

  function Min(a: int, b: int): int {
    if a <= b then a else b
  }

  /** The first n elements, or all of them when there are fewer. */
  function Cut<T>(s: seq<T>, n: nat): seq<T> {
    if |s| <= n then s else s[..n]
  }

  /** A text as bytes, one for each of its characters. */
  function Ascii(text: string): seq<Byte> {
    seq(|text|, i requires 0 <= i < |text| => text[i] as int % 0x100)
  }

  /** The parts laid end to end. */
  function Flat<T>(parts: seq<seq<T>>): seq<T> {
    if parts == [] then [] else parts[0] + Flat(parts[1..])
  }

  lemma {:induction false} FlatInParts<T>(a: seq<seq<T>>, b: seq<seq<T>>)
    ensures Flat(a + b) == Flat(a) + Flat(b)
  {
    if a == [] {
      assert a + b == b;
    } else {
      assert (a + b)[1..] == a[1..] + b;
      FlatInParts(a[1..], b);
    }
  }

  lemma SliceOfSlice<T>(s: seq<T>, from: nat, to: nat, lo: nat, hi: nat)
    requires from <= to <= |s| && lo <= hi <= to - from
    ensures s[from..to][lo..hi] == s[from + lo..from + hi]
  {
    var inner, outer := s[from..to][lo..hi], s[from + lo..from + hi];
    assert |inner| == |outer|;
    assert forall i :: 0 <= i < |inner| ==> inner[i] == outer[i];
  }

  /** A slice of a concatenation that lies in one of its parts. */
  lemma SliceOfSum<T>(a: seq<T>, b: seq<T>, lo: nat, hi: nat)
    requires lo <= hi <= |a| + |b|
    ensures hi <= |a| ==> (a + b)[lo..hi] == a[lo..hi]
    ensures |a| <= lo ==> (a + b)[lo..hi] == b[lo - |a|..hi - |a|]
  {
  }
}
