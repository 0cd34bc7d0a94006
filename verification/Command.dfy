// Command-line parsing: parse_command of student-distrib/system_call.c.
module Command {
  import opened Bytes
  import opened CStrings

  const FILENAME: nat := 32
  const ARGUMENTS: nat := 128

  function Spaces(s: seq<Byte>): (n: nat)
    ensures n <= |s|
  {
    if s != [] && s[0] == SPACE then 1 + Spaces(s[1..]) else 0
  }

  function WordLength(s: seq<Byte>): (n: nat)
    ensures n <= |s|
  {
    if s == [] || s[0] == SPACE || s[0] == NUL then 0 else 1 + WordLength(s[1..])
  }

  /** The first word of a string, and what follows it. */
  function FirstWord(s: seq<Byte>): seq<Byte> {
    s[Spaces(s)..][..WordLength(s[Spaces(s)..])]
  }

  function AfterFirstWord(s: seq<Byte>): seq<Byte> {
    s[Spaces(s)..][WordLength(s[Spaces(s)..])..]
  }

  function SecondWord(s: seq<Byte>): seq<Byte> {
    FirstWord(AfterFirstWord(s))
  }

  predicate IsWord(w: seq<Byte>) {
    SPACE !in w && NUL !in w
  }

  lemma {:induction false} SpacesAre(s: seq<Byte>, n: nat)
    requires n <= |s| && (forall i :: 0 <= i < n ==> s[i] == SPACE) && (n == |s| || s[n] != SPACE)
    ensures Spaces(s) == n
  {
    if n > 0 {
      SpacesAre(s[1..], n - 1);
    }
  }

  lemma {:induction false} WordLengthIs(s: seq<Byte>, n: nat)
    requires n <= |s| && IsWord(s[..n]) && (n == |s| || s[n] == SPACE || s[n] == NUL)
    ensures WordLength(s) == n
  {
    if n > 0 {
      assert s[..n][0] == s[0] && s[1..][..n - 1] == s[..n][1..];
      WordLengthIs(s[1..], n - 1);
    }
  }

  lemma FirstWordIs(s: seq<Byte>, start: nat, end: nat)
    requires start <= end <= |s| && (forall i :: 0 <= i < start ==> s[i] == SPACE)
    requires start == |s| || s[start] != SPACE
    requires IsWord(s[start..end]) && (end == |s| || s[end] == SPACE || s[end] == NUL)
    ensures FirstWord(s) == s[start..end] && AfterFirstWord(s) == s[end..]
  {
    SpacesAre(s, start);
    assert s[start..][..end - start] == s[start..end];
    WordLengthIs(s[start..], end - start);
  }

  lemma WordAfterSpaces(n: nat, w: seq<Byte>, rest: seq<Byte>)
    requires IsWord(w) && w != [] && rest != [] && (rest[0] == SPACE || rest[0] == NUL)
    ensures var s := seq(n, _ => SPACE) + w + rest; FirstWord(s) == w && AfterFirstWord(s) == rest
  {
    var s := seq(n, _ => SPACE) + w + rest;
    assert s[n..n + |w|] == w && s[n + |w|..] == rest && s[n] == w[0];
    FirstWordIs(s, n, n + |w|);
  }

  /** A program name and one argument, with any spaces before, between and after, parse back to themselves. */
  lemma WordsComeBack(name: seq<Byte>, arg: seq<Byte>, before: nat, between: nat, rest: seq<Byte>)
    requires IsWord(name) && IsWord(arg) && name != [] && arg != [] && between > 0
    requires rest != [] && (rest[0] == SPACE || rest[0] == NUL)
    ensures var s := seq(before, _ => SPACE) + name + (seq(between, _ => SPACE) + arg + rest);
            FirstWord(s) == name && SecondWord(s) == arg
  {
    WordAfterSpaces(before, name, seq(between, _ => SPACE) + arg + rest);
    WordAfterSpaces(between, arg, rest);
  }

  method SkipSpaces(command: seq<Byte>, from: nat) returns (start: nat)
    requires from <= |command| && NUL in command[from..]
    ensures from <= start < |command| && NUL in command[start..] && command[start] != SPACE
    ensures forall i :: from <= i < start ==> command[i] == SPACE
  {
    start := from;
    while command[start] == SPACE
      invariant from <= start < |command|
      invariant forall i :: from <= i < start ==> command[i] == SPACE
      invariant NUL in command[start..]
      decreases |command| - start
    {
      assert command[start..] == [SPACE] + command[start + 1..];
      start := start + 1;
    }
  }

  method SkipWord(command: seq<Byte>, start: nat) returns (end: nat)
    requires start <= |command| && NUL in command[start..]
    ensures start <= end < |command| && NUL in command[end..] && IsWord(command[start..end])
    ensures command[end] == SPACE || command[end] == NUL
  {
    end := start;
    while command[end] != SPACE && command[end] != NUL
      invariant start <= end < |command|
      invariant IsWord(command[start..end])
      invariant NUL in command[end..]
      decreases |command| - end
    {
      assert command[end..] == [command[end]] + command[end + 1..];
      assert command[start..end + 1] == command[start..end] + [command[end]];
      end := end + 1;
    }
  }

  /** The two loops that find a word: over the spaces, then to the next space or the end. */
  method FindWord(command: seq<Byte>, from: nat) returns (start: nat, end: nat)
    requires from <= |command| && NUL in command[from..]
    ensures from <= start <= end < |command|
    ensures command[start..end] == FirstWord(command[from..])
    ensures command[end..] == AfterFirstWord(command[from..]) && NUL in command[end..]
  {
    start := SkipSpaces(command, from);
    end := SkipWord(command, start);
    WordFound(command, from, start, end);
  }

  lemma WordFound(command: seq<Byte>, from: nat, start: nat, end: nat)
    requires from <= start <= end < |command| && command[start] != SPACE
    requires forall i :: from <= i < start ==> command[i] == SPACE
    requires IsWord(command[start..end]) && (command[end] == SPACE || command[end] == NUL)
    ensures command[start..end] == FirstWord(command[from..]) && command[end..] == AfterFirstWord(command[from..])
  {
    var s := command[from..];
    assert s[start - from..end - from] == command[start..end] && s[end - from..] == command[end..];
    FirstWordIs(s, start - from, end - from);
  }

  /** Copies a word, cut to leave room for its NUL, into a zeroed buffer. */
  method CopyWord(command: seq<Byte>, start: nat, end: nat, dest: array<Byte>)
    requires start <= end <= |command| && dest.Length > 0
    requires forall i :: 0 <= i < dest.Length ==> dest[i] == NUL
    modifies dest
    ensures dest[..] == Padded(Cut(command[start..end], dest.Length - 1), dest.Length)
  {
    var i := start;
    while i < end && i - start < dest.Length - 1
      invariant start <= i <= end && i - start <= dest.Length - 1
      invariant dest[..i - start] == command[start..i]
      invariant forall j :: i - start <= j < dest.Length ==> dest[j] == NUL
    {
      dest[i - start] := command[i];
      assert dest[..i + 1 - start] == dest[..i - start] + [command[i]];
      i := i + 1;
    }
    dest[i - start] := NUL;
    assert command[start..i] == Cut(command[start..end], dest.Length - 1);
    assert dest[..] == dest[..i - start] + dest[i - start..];
  }

  method ParseCommand(command: seq<Byte>, fileName: array<Byte>, request: array<Byte>)
    requires NUL in command && fileName != request
    requires fileName.Length == FILENAME && request.Length == ARGUMENTS
    requires forall i :: 0 <= i < FILENAME ==> fileName[i] == NUL
    requires forall i :: 0 <= i < ARGUMENTS ==> request[i] == NUL
    modifies fileName, request
    ensures fileName[..] == Padded(Cut(FirstWord(command), FILENAME - 1), FILENAME)
    ensures request[..] == Padded(Cut(SecondWord(command), ARGUMENTS - 1), ARGUMENTS)
  {
    assert command[0..] == command;
    var start, end := FindWord(command, 0);
    CopyWord(command, start, end, fileName);
    start, end := FindWord(command, end);
    CopyWord(command, start, end, request);
  }

  lemma {:induction false} WordIsWord(s: seq<Byte>)
    ensures IsWord(s[..WordLength(s)])
  {
    if s != [] && s[0] != SPACE && s[0] != NUL {
      WordIsWord(s[1..]);
      assert s[..WordLength(s)] == [s[0]] + s[1..][..WordLength(s[1..])];
    }
  }

  /** A word short enough, NUL-padded, reads back as that word. */
  lemma PaddedText(w: seq<Byte>, n: nat)
    requires NUL !in w && |w| < n
    ensures Text(Padded(w, n)) == w && NUL in Padded(w, n) && |Padded(w, n)| == n
  {
    assert Padded(w, n)[|w|] == NUL && Padded(w, n)[..|w|] == w;
    TextIs(Padded(w, n), |w|);
  }

  lemma ParsedArgument(command: seq<Byte>)
    ensures NUL !in Cut(SecondWord(command), ARGUMENTS - 1)
    ensures NUL !in Cut(FirstWord(command), FILENAME - 1)
  {
    WordIsWord(command[Spaces(command)..]);
    var s := AfterFirstWord(command);
    WordIsWord(s[Spaces(s)..]);
  }
}
