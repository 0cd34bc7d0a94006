// The line search of syscalls/ece391grep.c: a file of any length seen through a window of 1024 bytes.
module Grep {
  import opened Bytes
  import opened CStrings

  const WINDOW: nat := 1024
  const COLON: Byte := 0x3A

  // ---- Lines, and the pieces the window cuts them into ----

  /** How many bytes come before the first newline, or before the end. */
  function LineLength(s: seq<Byte>): (n: nat)
    ensures n <= |s|
  {
    if s == [] || s[0] == NEWLINE then 0 else 1 + LineLength(s[1..])
  }

  function PieceLength(s: seq<Byte>): nat {
    Min(LineLength(s), WINDOW)
  }

  function AfterLine(s: seq<Byte>): seq<Byte> {
    if LineLength(s) < |s| then s[LineLength(s) + 1..] else []
  }

  /** The lines of a text; what follows the last newline is a line too, unless it is empty. */
  function Lines(s: seq<Byte>): seq<seq<Byte>>
    decreases |s|
  {
    if s == [] then [] else [s[..LineLength(s)]] + Lines(AfterLine(s))
  }

  /** A text file: every line followed by its newline. */
  function Unlines(lines: seq<seq<Byte>>): seq<Byte> {
    if lines == [] then [] else lines[0] + [NEWLINE] + Unlines(lines[1..])
  }

  /** What is left after the first piece: a newline is consumed only if the window had room for it. */
  function AfterPiece(s: seq<Byte>): (r: seq<Byte>)
    ensures s != [] ==> |r| < |s|
  {
    var n := PieceLength(s);
    if n < WINDOW && n < |s| then s[n + 1..] else s[n..]
  }

  /** The lines, but a line that does not fit the window is cut into pieces of 1024 bytes. */
  function Pieces(s: seq<Byte>): seq<seq<Byte>>
    decreases |s|
  {
    if s == [] then [] else [s[..PieceLength(s)]] + Pieces(AfterPiece(s))
  }

  predicate OccursAt(line: seq<Byte>, pattern: seq<Byte>, i: nat) {
    i < |line| && pattern <= line[i..]
  }

  /** The pattern is a non-empty stretch of the line. */
  predicate Matches(line: seq<Byte>, pattern: seq<Byte>) {
    pattern != [] && exists i: nat :: i < |line| && OccursAt(line, pattern, i)
  }

  /** What is printed for one line. */
  function Printed(fname: seq<Byte>, pattern: seq<Byte>, line: seq<Byte>): seq<Byte> {
    if Matches(line, pattern) then fname + [COLON] + line + [NEWLINE] else []
  }

  /** The matching lines, each once and in order, under the file's name. */
  function Report(fname: seq<Byte>, pattern: seq<Byte>, lines: seq<seq<Byte>>): seq<Byte> {
    if lines == [] then [] else Printed(fname, pattern, lines[0]) + Report(fname, pattern, lines[1..])
  }

  // ---- The window against whole lines ----

  ghost predicate LinesFit(s: seq<Byte>) {
    forall i :: 0 <= i < |Lines(s)| ==> |Lines(s)[i]| <= WINDOW
  }

  lemma {:induction false} ShortLinesReportAlike(fname: seq<Byte>, pattern: seq<Byte>, s: seq<Byte>)
    requires LinesFit(s)
    ensures Report(fname, pattern, Pieces(s)) == Report(fname, pattern, Lines(s))
    decreases |s|
  {
    if s != [] {
      LinesFitStep(s);
      ShortLinesReportAlike(fname, pattern, AfterLine(s));
      FirstPieceIsLine(fname, pattern, s);
    }
  }

  lemma LinesFitStep(s: seq<Byte>)
    requires LinesFit(s) && s != []
    ensures LineLength(s) <= WINDOW && LinesFit(AfterLine(s))
  {
    assert Lines(s) == [s[..LineLength(s)]] + Lines(AfterLine(s));
    assert Lines(s)[0] == s[..LineLength(s)];
    assert forall i :: 0 <= i < |Lines(AfterLine(s))| ==> Lines(AfterLine(s))[i] == Lines(s)[i + 1];
  }

  lemma {:induction false} LineLengthIs(s: seq<Byte>, n: nat)
    requires n <= |s| && NEWLINE !in s[..n]
    ensures LineLength(s) >= n && (n == |s| || s[n] == NEWLINE ==> LineLength(s) == n)
  {
    if n > 0 {
      assert s[..n][0] == s[0] && s[1..][..n - 1] == s[..n][1..];
      LineLengthIs(s[1..], n - 1);
    }
  }

  lemma {:induction false} LineEnds(s: seq<Byte>)
    ensures LineLength(s) < |s| ==> s[LineLength(s)] == NEWLINE
    ensures NEWLINE !in s[..LineLength(s)]
  {
    if s != [] && s[0] != NEWLINE {
      LineEnds(s[1..]);
      assert s[..LineLength(s)] == [s[0]] + s[1..][..LineLength(s[1..])];
    }
  }

  lemma {:induction false} LinesComeBack(lines: seq<seq<Byte>>)
    requires forall i :: 0 <= i < |lines| ==> NEWLINE !in lines[i]
    ensures Lines(Unlines(lines)) == lines
  {
    if lines != [] {
      var text, n := Unlines(lines), |lines[0]|;
      assert text[..n] == lines[0] && text[n + 1..] == Unlines(lines[1..]);
      LineLengthIs(text, n);
      LinesComeBack(lines[1..]);
    }
  }

  /** A line that fits is one piece, or that piece and an empty one. */
  lemma FirstPieceIsLine(fname: seq<Byte>, pattern: seq<Byte>, s: seq<Byte>)
    requires s != [] && LineLength(s) <= WINDOW
    ensures var n := LineLength(s);
            Report(fname, pattern, Pieces(s))
              == Printed(fname, pattern, s[..n]) + Report(fname, pattern, Pieces(AfterLine(s)))
  {
    hide Printed, LineLength;
    var n := LineLength(s);
    assert Pieces(s)[0] == s[..n] && Pieces(s)[1..] == Pieces(AfterPiece(s));
    AfterShortPiece(fname, pattern, s);
  }

  lemma AfterShortPiece(fname: seq<Byte>, pattern: seq<Byte>, s: seq<Byte>)
    requires s != [] && LineLength(s) <= WINDOW
    ensures Report(fname, pattern, Pieces(AfterPiece(s))) == Report(fname, pattern, Pieces(AfterLine(s)))
  {
    hide Report, Pieces;
    var n := LineLength(s);
    if n == WINDOW && n < |s| {
      LineEnds(s);
      EmptyPiece(fname, pattern, s[n..]);
      assert s[n..][1..] == AfterLine(s);
    } else if n == |s| {
      assert AfterPiece(s) == [] == AfterLine(s);
    }
  }

  lemma EmptyPiece(fname: seq<Byte>, pattern: seq<Byte>, s: seq<Byte>)
    requires s != [] && s[0] == NEWLINE
    ensures Report(fname, pattern, Pieces(s)) == Report(fname, pattern, Pieces(s[1..]))
  {
    assert LineLength(s) == 0 && AfterPiece(s) == s[1..];
    assert Pieces(s) == [s[..0]] + Pieces(s[1..]);
    assert !Matches([], pattern);
  }

  lemma {:induction false} PiecesFit(s: seq<Byte>)
    ensures forall i :: 0 <= i < |Pieces(s)| ==> |Pieces(s)[i]| <= WINDOW
    decreases |s|
  {
    if s != [] {
      PiecesFit(AfterPiece(s));
    }
  }

  lemma {:induction false} NothingLongEnough(fname: seq<Byte>, pattern: seq<Byte>, lines: seq<seq<Byte>>)
    requires forall i :: 0 <= i < |lines| ==> |lines[i]| < |pattern|
    ensures Report(fname, pattern, lines) == []
  {
    if lines != [] {
      NothingLongEnough(fname, pattern, lines[1..]);
    }
  }

  lemma {:induction false} LineReportsItself(fname: seq<Byte>, lines: seq<seq<Byte>>, i: nat)
    requires i < |lines| && lines[i] != []
    ensures Report(fname, lines[i], lines) != []
  {
    if i == 0 {
      assert OccursAt(lines[0], lines[0], 0);
    } else {
      LineReportsItself(fname, lines[1..], i - 1);
    }
  }

  /** The window prints what a search of whole lines prints, for every pattern, exactly when every line fits it. */
  lemma WindowIsExact(fname: seq<Byte>, s: seq<Byte>)
    ensures (forall pattern :: Report(fname, pattern, Pieces(s)) == Report(fname, pattern, Lines(s))) <==> LinesFit(s)
  {
    if LinesFit(s) {
      forall pattern ensures Report(fname, pattern, Pieces(s)) == Report(fname, pattern, Lines(s)) {
        ShortLinesReportAlike(fname, pattern, s);
      }
    } else {
      var i :| 0 <= i < |Lines(s)| && |Lines(s)[i]| > WINDOW;
      PiecesFit(s);
      NothingLongEnough(fname, Lines(s)[i], Pieces(s));
      LineReportsItself(fname, Lines(s), i);
      assert Report(fname, Lines(s)[i], Pieces(s)) != Report(fname, Lines(s)[i], Lines(s));
    }
  }

  /** A line of 1025 bytes is not found by searching for it. */
  lemma {:induction false} LongLineIsMissed(fname: seq<Byte>)
    ensures var line := seq(1025, _ => SPACE);
            Report(fname, line, Pieces(line)) == [] && Report(fname, line, Lines(line)) != []
  {
    var line := seq(1025, _ => SPACE);
    LineLengthIs(line, 1025);
    assert Lines(line) == [line[..1025]] + Lines([]);
    assert line[..1025] == line;
    PiecesFit(line);
    NothingLongEnough(fname, line, Pieces(line));
    LineReportsItself(fname, [line], 0);
  }

  // ---- syscalls/ece391support.c ----

  method StrNCmp(s1: seq<Byte>, s2: seq<Byte>, n: nat) returns (r: int)
    requires Readable(s1, n) && Readable(s2, n)
    ensures r == 0 <==> SameText(s1, s2, n)
  {
    if n == 0 {
      return 0;
    }
    TextIsPrefix(s1);
    TextIsPrefix(s2);
    var i, left := 0, n;
    while s1[i] == s2[i]
      invariant 0 <= i < n && left == n - i && i < |s1| && i < |s2|
      invariant s1[..i] == s2[..i] && NUL !in s1[..i]
      decreases left
    {
      if s1[i] == NUL {
        TextIs(s1, i);
        TextIs(s2, i);
        assert Text(s1) == Text(s2);
        return 0;
      }
      left := left - 1;
      if left == 0 {
        assert s1[..n] == s1[..i] + [s1[i]] && s2[..n] == s2[..i] + [s2[i]];
        TextAgrees(s1, s2, n);
        assert Cut(Text(s1), n) == s1[..n] && Cut(Text(s2), n) == s2[..n];
        return 0;
      }
      i := i + 1;
    }
    FirstDifference(s1, s2, i, n);
    return s1[i] as int - s2[i] as int;
  }

  /**
   * ece391_strcpy from a later place in a buffer to its start: byte by byte up to and including the first NUL, which
   * is the one at end if none comes before it.
   */
  method ShiftDown(data: array<Byte>, from: nat, ghost end: nat)
    requires from <= end < data.Length && data[end] == NUL
    modifies data
    ensures NUL !in old(data[from..end]) ==> data[..end - from] == old(data[from..end]) && data[end - from] == NUL
    ensures data[end - from + 1..] == old(data[end - from + 1..])
  {
    var dst, src := 0, from;
    while data[src] != NUL
      invariant dst + from == src <= end
      invariant forall j :: 0 <= j < dst ==> data[j] == old(data[from + j])
      invariant forall j :: dst <= j < data.Length ==> data[j] == old(data[j])
      decreases end - src
    {
      data[dst] := data[src];
      dst, src := dst + 1, src + 1;
    }
    assert src < end ==> old(data[from..end])[src - from] == NUL;
    data[dst] := data[src];
  }

  // ---- do_one_file ----

  method FdPuts(s: seq<Byte>) returns (written: seq<Byte>)
    requires NUL in s
    ensures written == Text(s)
  {
    var n := StrLen(s);
    TextIsPrefix(s);
    written := s[..n];
  }

  /** The search stops at a line: an empty pattern matches only a NUL. */
  predicate Hits(line: seq<Byte>, pattern: seq<Byte>) {
    if pattern == [] then NUL in line else Matches(line, pattern)
  }

  /** What do_one_file prints for a line: the line up to its first NUL. */
  function Shown(fname: seq<Byte>, pattern: seq<Byte>, line: seq<Byte>): seq<Byte> {
    if Hits(line, pattern) then fname + [COLON] + Text(line) + [NEWLINE] else []
  }

  lemma ShownWhole(fname: seq<Byte>, pattern: seq<Byte>, line: seq<Byte>)
    requires NUL !in line
    ensures Shown(fname, pattern, line) == Printed(fname, pattern, line)
  {
    TextIs(line, |line|);
    assert line[..|line|] == line;
  }

  // ---- What is found ----

  /** The pattern is a stretch of the line: something comes before it and something behind it. */
  ghost predicate Holds(line: seq<Byte>, pattern: seq<Byte>) {
    exists before, behind :: line == before + pattern + behind
  }

  lemma HoldsAt(before: seq<Byte>, pattern: seq<Byte>, behind: seq<Byte>)
    requires pattern != []
    ensures Matches(before + pattern + behind, pattern)
  {
    var line := before + pattern + behind;
    assert line[|before|..] == pattern + behind;
    assert OccursAt(line, pattern, |before|);
  }

  lemma OccurrenceHolds(line: seq<Byte>, pattern: seq<Byte>, i: nat)
    requires OccursAt(line, pattern, i)
    ensures Holds(line, pattern)
  {
    assert line == line[..i] + pattern + line[i + |pattern|..];
  }

  lemma MatchesIsHolds(line: seq<Byte>, pattern: seq<Byte>)
    ensures Matches(line, pattern) <==> pattern != [] && Holds(line, pattern)
  {
    if pattern != [] && Holds(line, pattern) {
      var before, behind :| line == before + pattern + behind;
      HoldsAt(before, pattern, behind);
    }
    if Matches(line, pattern) {
      var i: nat :| i < |line| && OccursAt(line, pattern, i);
      OccurrenceHolds(line, pattern, i);
    }
  }

  /** A line that holds the pattern anywhere is printed, whole and once. */
  lemma ShownWhereverFound(fname: seq<Byte>, before: seq<Byte>, pattern: seq<Byte>, behind: seq<Byte>)
    requires pattern != [] && NUL !in before + pattern + behind
    ensures var line := before + pattern + behind;
            Shown(fname, pattern, line) == fname + [COLON] + line + [NEWLINE]
  {
    ShownWhole(fname, pattern, before + pattern + behind);
    HoldsAt(before, pattern, behind);
  }

  /** And a line of which anything is printed holds it. */
  lemma ShownMeansFound(fname: seq<Byte>, pattern: seq<Byte>, line: seq<Byte>) returns (i: nat)
    requires pattern != [] && Shown(fname, pattern, line) != []
    ensures i + |pattern| <= |line| && line[i..i + |pattern|] == pattern
  {
    i :| i < |line| && OccursAt(line, pattern, i);
  }

  lemma {:induction false} ReportInParts(fname: seq<Byte>, pattern: seq<Byte>, a: seq<seq<Byte>>, b: seq<seq<Byte>>)
    ensures Report(fname, pattern, a + b) == Report(fname, pattern, a) + Report(fname, pattern, b)
  {
    if a == [] {
      assert a + b == b;
    } else {
      assert (a + b)[1..] == a[1..] + b;
      ReportInParts(fname, pattern, a[1..], b);
    }
  }

  /** The report of a text: each line's part is the line under the file's name if it holds the pattern, else nothing. */
  lemma ReportIsOfHolders(fname: seq<Byte>, pattern: seq<Byte>, lines: seq<seq<Byte>>, i: nat)
    requires i < |lines|
    ensures Report(fname, pattern, lines)
            == Report(fname, pattern, lines[..i])
               + (if pattern != [] && Holds(lines[i], pattern) then fname + [COLON] + lines[i] + [NEWLINE] else [])
               + Report(fname, pattern, lines[i + 1..])
  {
    MatchesIsHolds(lines[i], pattern);
    var rest := lines[i..];
    assert lines == lines[..i] + rest && rest[1..] == lines[i + 1..];
    ReportInParts(fname, pattern, lines[..i], rest);
    assert Report(fname, pattern, rest) == Printed(fname, pattern, lines[i]) + Report(fname, pattern, rest[1..]);
  }

  /** Searching a file of lines no longer than the window prints a line that holds the pattern, between the others'. */
  lemma FileReportsHolder(fname: seq<Byte>, pattern: seq<Byte>, above: seq<seq<Byte>>, line: seq<Byte>,
                          below: seq<seq<Byte>>)
    requires pattern != [] && Holds(line, pattern)
    requires forall l :: l in above + [line] + below ==> NEWLINE !in l && |l| <= WINDOW
    ensures Report(fname, pattern, Pieces(Unlines(above + [line] + below)))
            == Report(fname, pattern, above) + (fname + [COLON] + line + [NEWLINE]) + Report(fname, pattern, below)
  {
    hide Report, Pieces, Lines, Unlines, Holds;
    var lines := above + [line] + below;
    LinesComeBack(lines);
    ShortLinesReportAlike(fname, pattern, Unlines(lines));
    ReportIsOfHolders(fname, pattern, lines, |above|);
    assert lines[..|above|] == above && lines[|above|] == line && lines[|above| + 1..] == below;
  }

  /** And a file of which anything is printed has a line that holds the pattern. */
  lemma {:induction false} ReportMeansHolder(fname: seq<Byte>, pattern: seq<Byte>, lines: seq<seq<Byte>>)
    requires Report(fname, pattern, lines) != []
    ensures pattern != [] && exists i :: 0 <= i < |lines| && Holds(lines[i], pattern)
  {
    MatchesIsHolds(lines[0], pattern);
    if !Matches(lines[0], pattern) {
      ReportMeansHolder(fname, pattern, lines[1..]);
    }
  }

  // ---- The search of one line ----

  /** A string compared with what memory holds, for as long as the string is. */
  lemma ComparesTail(tail: seq<Byte>, end: nat, s: seq<Byte>)
    requires end < |tail| && tail[end] == NUL && NUL in s
    ensures SameText(tail, s, |Text(s)|) <==> Text(s) <= tail[..end]
  {
    var pattern, n := Text(s), |Text(s)|;
    TextIsPrefix(s);
    TextIsPrefix(tail);
    assert Cut(pattern, n) == pattern;
    assert |Text(tail)| <= end;
    if pattern <= tail[..end] {
      assert pattern == tail[..n];
      assert n <= |Text(tail)| && Text(tail)[..n] == tail[..n];
    }
    if SameText(tail, s, n) {
      assert pattern == Cut(Text(tail), n) <= Text(tail) <= tail[..end];
    }
  }

  lemma LineText(tail: seq<Byte>, n: nat)
    requires n < |tail| && tail[n] == NUL
    ensures Text(tail) == Text(tail[..n]) && NUL in tail
  {
    TextIsPrefix(tail);
    var m := |Text(tail)|;
    assert m <= n;
    assert tail[..n][..m] == tail[..m];
    TextIs(tail[..n], m);
  }

  /** Looks for the pattern at every place of the line, and prints the line at the first hit. */
  method SearchLine(data: array<Byte>, lineStart: nat, lineEnd: nat, s: seq<Byte>, sLen: nat, fname: seq<Byte>)
    returns (out: seq<Byte>)
    requires lineStart <= lineEnd < data.Length && data[lineEnd] == NUL
    requires NUL in s && sLen == |Text(s)| && NUL in fname
    ensures out == Shown(Text(fname), Text(s), data[lineStart..lineEnd])
  {
    hide Text;
    ghost var line, pattern := data[lineStart..lineEnd], Text(s);
    TextIsPrefix(s);
    for check := lineStart to lineEnd
      invariant forall i: nat :: i < check - lineStart
                  ==> if pattern == [] then line[i] != NUL else !OccursAt(line, pattern, i)
    {
      ghost var tail := data[check..];
      assert tail[lineEnd - check] == NUL && tail[..lineEnd - check] == line[check - lineStart..];
      ComparesTail(tail, lineEnd - check, s);
      if s[0] == data[check] {
        var c := StrNCmp(data[check..], s, sLen);
        if c == 0 {
          LineText(data[lineStart..], lineEnd - lineStart);
          assert data[lineStart..][..lineEnd - lineStart] == line;
          assert if pattern == [] then line[check - lineStart] == NUL else OccursAt(line, pattern, check - lineStart);
          var name := FdPuts(fname);
          var text := FdPuts(data[lineStart..]);
          return name + [COLON] + text + [NEWLINE];
        }
      }
    }
    return [];
  }

  /** The first newline of the window from lineStart on, or the end of what has been read. */
  method FindLineEnd(data: array<Byte>, lineStart: nat, last: nat) returns (lineEnd: nat)
    requires lineStart <= last <= data.Length
    ensures lineStart <= lineEnd <= last && NEWLINE !in data[lineStart..lineEnd]
    ensures lineEnd < last ==> data[lineEnd] == NEWLINE
  {
    lineEnd := lineStart;
    while lineEnd < last && NEWLINE != data[lineEnd]
      invariant lineStart <= lineEnd <= last && NEWLINE !in data[lineStart..lineEnd]
    {
      assert data[lineStart..lineEnd + 1] == data[lineStart..lineEnd] + [data[lineEnd]];
      lineEnd := lineEnd + 1;
    }
  }

  ghost function Found(fname: seq<Byte>, s: seq<Byte>, text: seq<Byte>): seq<Byte> {
    Report(Text(fname), Text(s), Pieces(text))
  }

  /** A segment of n bytes that ends properly is the first piece of what is left; the next one starts at next. */
  lemma SegmentIsPiece(fname: seq<Byte>, s: seq<Byte>, left: seq<Byte>, n: nat, next: nat)
    requires n <= |left| && n <= WINDOW && NEWLINE !in left[..n] && next <= |left|
    requires n == WINDOW || n == |left| || left[n] == NEWLINE
    requires next == if n < WINDOW && n < |left| then n + 1 else n
    ensures Found(fname, s, left) == Printed(Text(fname), Text(s), left[..n]) + Found(fname, s, left[next..])
  {
    LineLengthIs(left, n);
    if left == [] {
      assert !Matches([], Text(s));
    } else {
      assert Pieces(left)[0] == left[..n] && Pieces(left)[1..] == Pieces(AfterPiece(left));
    }
  }

  /**
   * What the window holds from start on is how the rest of the file begins, and all of it if the window is not full or
   * nothing more was read; the byte just past the window is never a newline. In a file with NULs only the numbers hold.
   */
  ghost predicate Shows(window: seq<Byte>, start: nat, last: nat, cnt: nat, left: seq<Byte>, clean: bool) {
    && |window| == WINDOW + 1 && start <= last <= WINDOW && window[WINDOW] != NEWLINE
    && last - start <= |left| && (last < WINDOW || cnt == 0 ==> last - start == |left|)
    && (clean ==> NUL !in left && window[start..last] <= left)
  }

  lemma Bounds(window: seq<Byte>, start: nat, last: nat, cnt: nat, left: seq<Byte>, clean: bool)
    requires Shows(window, start, last, cnt, left, clean)
    ensures |window| == WINDOW + 1 && start <= last <= WINDOW && window[WINDOW] != NEWLINE && last - start <= |left|
    ensures last < WINDOW || cnt == 0 ==> last - start == |left|
  {
  }

  /** Where the next segment starts in what is left. */
  function NextStart(start: nat, end: nat, last: nat): nat
    requires start <= end <= last
  {
    Min(end + 1, last) - start
  }

  /**
   * A segment of the window that is not an unfinished line is the first piece of what is left of the file. A newline
   * left over past a short read does no harm, because the file has then ended.
   */
  lemma WindowStep(window: seq<Byte>, start: nat, end: nat, last: nat, cnt: nat, left: seq<Byte>)
    requires Shows(window, start, last, cnt, left, true) && start <= end <= last
    requires NEWLINE !in window[start..end] && (end < last ==> window[end] == NEWLINE)
    requires window[end] == NEWLINE || cnt == 0 || start == 0
    ensures var n, next := end - start, NextStart(start, end, last);
            && n <= |left| && n <= WINDOW && left[..n] == window[start..end] && next <= |left|
            && (n == WINDOW || n == |left| || left[n] == NEWLINE)
            && next == if n < WINDOW && n < |left| then n + 1 else n
  {
    var n, shown := end - start, window[start..last];
    assert shown[..n] == window[start..end];
    assert end < last ==> shown[n] == NEWLINE;
  }

  /** The inner loop: prints the matching pieces of the window and keeps, moved to the front, an unfinished line. */
  method ScanWindow(data: array<Byte>, last: nat, cnt: nat, s: seq<Byte>, sLen: nat, fname: seq<Byte>,
                    ghost left: seq<Byte>, ghost all: seq<Byte>, ghost clean: bool)
    returns (kept: nat, out: seq<Byte>, ghost rest: seq<Byte>)
    requires Shows(data[..], 0, last, cnt, left, clean) && NUL in s && sLen == |Text(s)| && NUL in fname
    requires clean ==> all == Found(fname, s, left)
    modifies data
    ensures kept < WINDOW && kept <= last && (cnt == 0 ==> kept == 0)
    ensures data[WINDOW] != NEWLINE && rest == left[last - kept..]
    ensures clean ==> data[..kept] <= rest && out + Found(fname, s, rest) == all
  {
    hide Found, Shown, Text, Shows;
    var lineStart := 0;
    out, rest := [], left;
    while true
      invariant lineStart <= |left|
      invariant Shows(data[..], lineStart, last, cnt, rest, clean) && rest == left[lineStart..]
      invariant clean ==> out + Found(fname, s, rest) == all
      decreases last - lineStart
    {
      Bounds(data[..], lineStart, last, cnt, rest, clean);
      var lineEnd := FindLineEnd(data, lineStart, last);
      if data[lineEnd] != NEWLINE && cnt != 0 && lineStart != 0 {
        KeepLine(data, lineStart, last, cnt, rest, clean);
        return last - lineStart, out, rest;
      }
      var line;
      line, rest := EndAndSearch(data, lineStart, lineEnd, last, cnt, s, sLen, fname, out, rest, all, clean);
      Suffix(left, lineStart, NextStart(lineStart, lineEnd, last));
      out := out + line;
      lineStart := lineEnd + 1;
      if lineStart >= last {
        return 0, out, rest;
      }
    }
  }

  lemma Suffix(left: seq<Byte>, a: nat, b: nat)
    requires a + b <= |left|
    ensures left[a..][b..] == left[a + b..]
  {
  }

  lemma Appended(a: seq<Byte>, b: seq<Byte>, c: seq<Byte>)
    ensures a + b + c == a + (b + c)
  {
  }

  /** Moves the unfinished line that ends the window to its front. */
  method KeepLine(data: array<Byte>, lineStart: nat, last: nat, ghost cnt: nat, ghost left: seq<Byte>,
                  ghost clean: bool)
    requires Shows(data[..], lineStart, last, cnt, left, clean) && 0 < lineStart
    modifies data
    ensures data[WINDOW] != NEWLINE && (clean ==> data[..last - lineStart] <= left)
  {
    ghost var line := data[..][lineStart..last];
    data[last] := NUL;
    assert data[lineStart..last] == line;
    ShiftDown(data, lineStart, last);
    assert data[WINDOW] == data[last - lineStart + 1..][WINDOW - (last - lineStart) - 1];
  }

  /** Ends the segment with a NUL, searches it, and steps over it. */
  method EndAndSearch(data: array<Byte>, lineStart: nat, lineEnd: nat, last: nat, ghost cnt: nat,
                      s: seq<Byte>, sLen: nat, fname: seq<Byte>,
                      ghost out: seq<Byte>, ghost left: seq<Byte>, ghost all: seq<Byte>, ghost clean: bool)
    returns (line: seq<Byte>, ghost rest: seq<Byte>)
    requires Shows(data[..], lineStart, last, cnt, left, clean) && NUL in s && sLen == |Text(s)| && NUL in fname
    requires lineStart <= lineEnd <= last
    requires NEWLINE !in data[lineStart..lineEnd] && (lineEnd < last ==> data[lineEnd] == NEWLINE)
    requires data[lineEnd] == NEWLINE || cnt == 0 || lineStart == 0
    requires clean ==> out + Found(fname, s, left) == all
    modifies data
    ensures line == Shown(Text(fname), Text(s), old(data[lineStart..lineEnd]))
    ensures data[WINDOW] != NEWLINE && rest == left[NextStart(lineStart, lineEnd, last)..]
    ensures lineEnd < last ==> Shows(data[..], lineEnd + 1, last, cnt, rest, clean)
    ensures clean ==> out + line + Found(fname, s, rest) == all
  {
    hide Found, Printed, Shown, Text;
    ghost var next := NextStart(lineStart, lineEnd, last);
    rest := left[next..];
    if clean {
      assert data[..][lineStart..lineEnd] == data[lineStart..lineEnd];
      WindowStep(data[..], lineStart, lineEnd, last, cnt, left);
      SegmentIsPiece(fname, s, left, lineEnd - lineStart, next);
      NoNulInPart(left, lineEnd - lineStart);
      ShownWhole(Text(fname), Text(s), data[lineStart..lineEnd]);
    }
    EndLine(data, lineStart, lineEnd, last, cnt, left, clean);
    line := SearchLine(data, lineStart, lineEnd, s, sLen, fname);
    Appended(out, line, Found(fname, s, rest));
  }

  lemma NoNulInPart(left: seq<Byte>, n: nat)
    requires NUL !in left && n <= |left|
    ensures NUL !in left[..n]
  {
  }

  method EndLine(data: array<Byte>, lineStart: nat, lineEnd: nat, last: nat, ghost cnt: nat, ghost left: seq<Byte>,
                 ghost clean: bool)
    requires Shows(data[..], lineStart, last, cnt, left, clean) && lineStart <= lineEnd <= last
    modifies data
    ensures data[WINDOW] != NEWLINE && data[lineEnd] == NUL
    ensures data[lineStart..lineEnd] == old(data[lineStart..lineEnd])
    ensures lineEnd < last ==> Shows(data[..], lineEnd + 1, last, cnt, left[lineEnd + 1 - lineStart..], clean)
  {
    ghost var all, segment, n := data[..], data[lineStart..lineEnd], lineEnd + 1 - lineStart;
    assert segment == all[lineStart..lineEnd];
    if clean && lineEnd < last {
      SliceOfSlice(all, lineStart, last, n, last - lineStart);
      assert all[lineEnd + 1..last] <= left[n..];
    }
    data[lineEnd] := NUL;
    assert data[lineStart..lineEnd] == segment;
    assert lineEnd < last ==> data[..][lineEnd + 1..last] == all[lineEnd + 1..last];
  }
}
