// The string routines of student-distrib/lib.c. A C pointer is the sequence of bytes
// readable from it; the string it denotes ends before the first NUL.
module CStrings {
  import opened Bytes

  /** The string stored in memory s: everything before the first NUL. */
  function Text(s: seq<Byte>): seq<Byte> {
    if s == [] || s[0] == NUL then [] else [s[0]] + Text(s[1..])
  }

  /** s cut to n bytes, then filled up with NULs to exactly n. */
  function Padded(s: seq<Byte>, n: nat): seq<Byte> {
    Cut(s, n) + seq(n - |Cut(s, n)|, _ => NUL)
  }

  /** The text of s is the stretch s[..k] exactly when s[..k] is NUL-free and a NUL or the end follows. */
  lemma {:induction false} TextIs(s: seq<Byte>, k: nat)
    requires k <= |s|
    ensures (NUL !in s[..k] && (k == |s| || s[k] == NUL)) <==> Text(s) == s[..k]
  {
    if s != [] && k > 0 {
      assert s[..k] == [s[0]] + s[1..][..k - 1];
      TextIs(s[1..], k - 1);
    } else if s != [] && s[0] != NUL {
      assert |Text(s)| > 0;
    }
  }

  lemma {:induction false} TextIsPrefix(s: seq<Byte>)
    ensures Text(s) <= s && NUL !in Text(s)
    ensures |Text(s)| < |s| ==> s[|Text(s)|] == NUL
    ensures NUL in s ==> |Text(s)| < |s|
  {
    if s != [] && s[0] != NUL {
      TextIsPrefix(s[1..]);
    }
  }

  method StrLen(s: seq<Byte>) returns (len: nat)
    requires NUL in s
    ensures len == |Text(s)| && len < |s|
  {
    TextIsPrefix(s);
    len := 0;
    while s[len] != NUL
      invariant len <= |Text(s)|
      decreases |s| - len
    {
      len := len + 1;
    }
    TextIs(s, len);
  }

  function SignedByte(b: Byte): int {
    if b < 128 then b else b - 256
  }

  /** The two strings agree on their first n bytes, or end together before that. */
  predicate SameText(s1: seq<Byte>, s2: seq<Byte>, n: nat) {
    Cut(Text(s1), n) == Cut(Text(s2), n)
  }

  /** Memory that a comparison of n bytes may read: n bytes long, or ended by a NUL. */
  predicate Readable(s: seq<Byte>, n: nat) {
    n <= |s| || NUL in s
  }

  lemma TextAgrees(s1: seq<Byte>, s2: seq<Byte>, i: nat)
    requires i <= |s1| && i <= |s2| && s1[..i] == s2[..i] && NUL !in s1[..i]
    ensures i <= |Text(s1)| && i <= |Text(s2)| && Text(s1)[..i] == Text(s2)[..i] == s1[..i]
  {
    TextIsPrefix(s1);
    TextIsPrefix(s2);
  }

  lemma FirstDifference(s1: seq<Byte>, s2: seq<Byte>, i: nat, n: nat)
    requires i < n && i < |s1| && i < |s2| && s1[i] != s2[i]
    requires s1[..i] == s2[..i] && NUL !in s1[..i]
    ensures !SameText(s1, s2, n)
  {
    TextIsPrefix(s1);
    TextIsPrefix(s2);
    var c1, c2 := Cut(Text(s1), n), Cut(Text(s2), n);
    assert |c1| == i ==> s1[i] == NUL;
    assert |c2| == i ==> s2[i] == NUL;
    assert |c1| > i ==> c1[i] == s1[i] != NUL;
    assert |c2| > i ==> c2[i] == s2[i] != NUL;
  }

  method StrNCmp(s1: seq<Byte>, s2: seq<Byte>, n: nat) returns (r: int)
    requires Readable(s1, n) && Readable(s2, n)
    ensures r == 0 <==> SameText(s1, s2, n)
  {
    TextIsPrefix(s1);
    TextIsPrefix(s2);
    var i := 0;
    while i < n
      invariant 0 <= i <= n && i <= |s1| && i <= |s2|
      invariant s1[..i] == s2[..i] && NUL !in s1[..i]
    {
      if s1[i] != s2[i] || s1[i] == NUL {
        if s1[i] != s2[i] {
          FirstDifference(s1, s2, i, n);
        } else {
          TextIs(s1, i);
          TextIs(s2, i);
        }
        return SignedByte(s1[i]) - SignedByte(s2[i]);
      }
      i := i + 1;
    }
    assert Cut(Text(s1), n) == s1[..n] && Cut(Text(s2), n) == s2[..n];
    return 0;
  }

  method StrNCpy(dest: array<Byte>, at: nat, src: seq<Byte>, n: nat)
    requires at + n <= dest.Length
    requires Readable(src, n + 1)
    modifies dest
    ensures dest[at..at + n] == Padded(Text(src), n)
    ensures dest[..at] == old(dest[..at]) && dest[at + n..] == old(dest[at + n..])
  {
    hide Text;
    TextIsPrefix(src);
    var i := 0;
    while src[i] != NUL && i < n
      invariant 0 <= i <= n && i <= |Text(src)|
      invariant dest[at..at + i] == Text(src)[..i]
      invariant dest[..at] == old(dest[..at]) && dest[at + n..] == old(dest[at + n..])
      decreases n - i
    {
      dest[at + i] := src[i];
      assert dest[at..at + i + 1] == dest[at..at + i] + [src[i]];
      i := i + 1;
    }
    ghost var copied := Cut(Text(src), n);
    assert Text(src)[..i] == copied;
    while i < n
      invariant |copied| <= i <= n
      invariant dest[at..at + i] == copied + seq(i - |copied|, _ => NUL)
      invariant dest[..at] == old(dest[..at]) && dest[at + n..] == old(dest[at + n..])
    {
      dest[at + i] := NUL;
      assert dest[at..at + i + 1] == dest[at..at + i] + [NUL];
      i := i + 1;
    }
  }
}
