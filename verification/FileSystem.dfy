// The read-only block file system of student-distrib/filesystem.c, over the raw bytes of the image:
// one boot block, then the inode blocks, then the data blocks, each 4096 bytes long.
module FileSystem {
  import opened Bytes
  import opened CStrings

  const NAME_LENGTH: nat := 32
  const MAX_FILE_SIZE := 4190208 // 1023 listed blocks

  const RTC_FILE := 0
  const DIRECTORY_FILE := 1
  const REGULAR_FILE := 2

  // ---- Layout ----

  /** The number written in s, least significant byte first. */
  function LittleEndian(s: seq<Byte>): nat {
    if s == [] then 0 else s[0] as int + 0x100 * LittleEndian(s[1..])
  }

  /** A number in four bytes, the least significant first. */
  function Num32(n: nat): (s: seq<Byte>)
    requires n < 0x1_0000_0000
    ensures |s| == 4
  {
    [n % 0x100, n / 0x100 % 0x100, n / 0x1_0000 % 0x100, n / 0x100_0000]
  }

  lemma InBytes(n: nat)
    requires n < 0x1_0000_0000
    ensures n == n % 0x100 + 0x100 * (n / 0x100 % 0x100 + 0x100 * (n / 0x1_0000 % 0x100 + 0x100 * (n / 0x100_0000)))
  {
    assert n / 0x1_0000 == n / 0x100 / 0x100 && n / 0x100_0000 == n / 0x1_0000 / 0x100;
  }

  lemma NumberComesBack(n: nat)
    requires n < 0x1_0000_0000
    ensures LittleEndian(Num32(n)) == n
  {
    InBytes(n);
    FourBytes(n % 0x100, n / 0x100 % 0x100, n / 0x1_0000 % 0x100, n / 0x100_0000);
  }

  lemma FourBytes(a: Byte, b: Byte, c: Byte, d: Byte)
    ensures LittleEndian([a, b, c, d]) == a + 0x100 * (b + 0x100 * (c + 0x100 * d))
  {
    assert [a, b, c, d][1..] == [b, c, d] && [b, c, d][1..] == [c, d] && [c, d][1..] == [d] && [d][1..] == [];
    assert LittleEndian([d]) == d && LittleEndian([c, d]) == c + 0x100 * d;
  }

  /** The 32-bit number stored at position at. */
  function U32(s: seq<Byte>, at: nat): nat
    requires at + 4 <= |s|
  {
    LittleEndian(s[at..at + 4])
  }

  function EntryCount(image: seq<Byte>): nat
    requires |image| >= 4096
  {
    U32(image, 0)
  }

  function InodeCount(image: seq<Byte>): nat
    requires |image| >= 4096
  {
    U32(image, 4)
  }

  function BlockCount(image: seq<Byte>): nat
    requires |image| >= 4096
  {
    U32(image, 8)
  }

  /** The image holds every block it announces, fits in memory, and its fixed tables are not overrun. */
  ghost predicate WellFormed(image: seq<Byte>) {
    && |image| >= 4096
    && |image| == (1 + InodeCount(image) + BlockCount(image)) * 4096 < 0x1_0000_0000
    && EntryCount(image) <= 63
    && (forall i :: 0 <= i < EntryCount(image) ==> FileType(Entry(image, i)) <= REGULAR_FILE)
    && (forall n :: 0 <= n < InodeCount(image) ==> FileSize(image, n) <= MAX_FILE_SIZE)
  }

  /** The 64 bytes of directory entry i. */
  function Entry(image: seq<Byte>, i: nat): (e: seq<Byte>)
    requires |image| >= 4096 && i < 63
    ensures |e| == 64
  {
    image[64 * i + 64..64 * i + 128]
  }

  function FileType(entry: seq<Byte>): nat
    requires |entry| == 64
  {
    U32(entry, 32)
  }

  function InodeOf(entry: seq<Byte>): nat
    requires |entry| == 64
  {
    U32(entry, 36)
  }

  /** A name fills its 32 bytes or ends at the first NUL among them. */
  function Name(entry: seq<Byte>): seq<Byte> {
    Cut(Text(entry), NAME_LENGTH)
  }

  function FileSize(image: seq<Byte>, inode: nat): nat
    requires |image| >= (inode + 2) * 4096
  {
    U32(image, (inode + 1) * 4096)
  }

  function FileBlock(image: seq<Byte>, inode: nat, i: nat): nat
    requires |image| >= (inode + 2) * 4096 && i < 1023
  {
    U32(image, (inode + 1) * 4096 + 4 + 4 * i)
  }

  function BlocksFor(size: nat): nat {
    size / 4096 + if size % 4096 > 0 then 1 else 0
  }

  /** Every block listed by the inode is a block of the image. */
  predicate BlocksValid(image: seq<Byte>, inode: nat)
    requires |image| >= (inode + 2) * 4096 && FileSize(image, inode) <= MAX_FILE_SIZE
  {
    forall i :: 0 <= i < BlocksFor(FileSize(image, inode)) ==> FileBlock(image, inode, i) < BlockCount(image)
  }

  /** Where data block b starts in the image. */
  function BlockStart(image: seq<Byte>, b: nat): nat
    requires |image| >= 4096
  {
    (InodeCount(image) + 1 + b) * 4096
  }

  ghost predicate Readable(image: seq<Byte>, inode: nat) {
    WellFormed(image) && inode < InodeCount(image) && BlocksValid(image, inode)
  }

  /** Where each of the file's data blocks starts in the image. */
  function BlockStarts(image: seq<Byte>, inode: nat): (s: seq<nat>)
    requires Readable(image, inode)
    ensures |s| == BlocksFor(FileSize(image, inode))
    ensures forall i :: 0 <= i < |s| ==> s[i] == BlockStart(image, FileBlock(image, inode, i)) && s[i] + 4096 <= |image|
  {
    seq(BlocksFor(FileSize(image, inode)),
        i requires 0 <= i < BlocksFor(FileSize(image, inode)) => BlockStart(image, FileBlock(image, inode, i)))
  }

  ghost predicate StartsIn(image: seq<Byte>, starts: seq<nat>) {
    forall i :: 0 <= i < |starts| ==> starts[i] + 4096 <= |image|
  }

  /** The blocks of the image that start at these places, laid end to end. */
  ghost function Joined(image: seq<Byte>, starts: seq<nat>): (s: seq<Byte>)
    requires StartsIn(image, starts)
    ensures |s| == |starts| * 4096
  {
    if starts == [] then [] else image[starts[0]..starts[0] + 4096] + Joined(image, starts[1..])
  }

  ghost function Stored(image: seq<Byte>, inode: nat): (s: seq<Byte>)
    requires Readable(image, inode)
    ensures |s| == BlocksFor(FileSize(image, inode)) * 4096 >= FileSize(image, inode)
  {
    Joined(image, BlockStarts(image, inode))
  }

  /** The file as the user sees it: its blocks end to end, cut to its size. */
  ghost function Content(image: seq<Byte>, inode: nat): (s: seq<Byte>)
    requires Readable(image, inode)
    ensures |s| == FileSize(image, inode)
  {
    Stored(image, inode)[..FileSize(image, inode)]
  }

  // ---- Directory lookup ----

  /** The lowest entry at or after i whose name is the given one. */
  ghost function FindEntry(image: seq<Byte>, fname: seq<Byte>, i: nat): (r: Option<nat>)
    requires WellFormed(image) && i <= EntryCount(image)
    ensures r.Some? ==> i <= r.value < EntryCount(image) && SameText(fname, Entry(image, r.value), NAME_LENGTH)
    ensures forall j :: i <= j < (if r.Some? then r.value else EntryCount(image)) ==>
              !SameText(fname, Entry(image, j), NAME_LENGTH)
    decreases EntryCount(image) - i
  {
    if i == EntryCount(image) then None
    else if SameText(fname, Entry(image, i), NAME_LENGTH) then Some(i)
    else FindEntry(image, fname, i + 1)
  }

  ghost function Lookup(image: seq<Byte>, fname: seq<Byte>): Option<nat>
    requires WellFormed(image)
  {
    if |Text(fname)| > NAME_LENGTH then None else FindEntry(image, fname, 0)
  }

  method ReadDentryByName(image: seq<Byte>, fname: seq<Byte>) returns (r: Option<seq<Byte>>)
    requires WellFormed(image) && NUL in fname
    ensures r == if Lookup(image, fname).Some? then Some(Entry(image, Lookup(image, fname).value)) else None
  {
    var length := StrLen(fname);
    if length > NAME_LENGTH {
      return None;
    }
    for i := 0 to EntryCount(image)
      invariant FindEntry(image, fname, i) == FindEntry(image, fname, 0)
    {
      var c := StrNCmp(fname, Entry(image, i), NAME_LENGTH);
      if c == 0 {
        return Some(Entry(image, i));
      }
    }
    return None;
  }

  method ReadDentryByIndex(image: seq<Byte>, index: nat) returns (r: Option<seq<Byte>>)
    requires WellFormed(image)
    ensures r == if index < EntryCount(image) then Some(Entry(image, index)) else None
  {
    if index >= EntryCount(image) {
      return None;
    }
    return Some(Entry(image, index));
  }

  ghost predicate DistinctNames(image: seq<Byte>)
    requires WellFormed(image)
  {
    forall i, j :: 0 <= i < j < EntryCount(image) ==> Name(Entry(image, i)) != Name(Entry(image, j))
  }

  /** Looking up a listed name, NUL-terminated, finds the entry that listed it, 32-byte names included. */
  lemma ListedNameIsFound(image: seq<Byte>, i: nat)
    requires WellFormed(image) && DistinctNames(image) && i < EntryCount(image)
    ensures Lookup(image, Name(Entry(image, i)) + [NUL]) == Some(i)
  {
    var name := Name(Entry(image, i));
    TextIsPrefix(Entry(image, i));
    TextIs(name + [NUL], |name|);
    assert Text(name + [NUL]) == name;
    assert SameText(name + [NUL], Entry(image, i), NAME_LENGTH);
    assert forall j :: 0 <= j < i ==> Name(Entry(image, j)) != name;
  }

  lemma EntryEnds(entry: seq<Byte>)
    requires |entry| == 64 && FileType(entry) <= REGULAR_FILE
    ensures NUL in entry
    ensures |Text(entry)| <= 33
  {
    var bytes := entry[32..36];
    assert LittleEndian(bytes) == bytes[0] as int + 0x100 * LittleEndian(bytes[1..]);
    assert bytes[1..][0] == entry[33] == NUL;
    TextIsPrefix(entry);
    assert NUL !in entry[..|Text(entry)|];
  }

  // ---- Block-mapped reads ----

  /** The length read_data works with after cutting the request at the end of the file; the sum is 32-bit. */
  function Clipped(size: nat, offset: nat, length: nat): nat
    requires offset <= size
  {
    if Wrap32(length + offset) > size then size - offset else length
  }

  /** The request whose 32-bit end wraps round to a position inside the file. */
  predicate EndWraps(size: nat, offset: nat, length: nat) {
    offset + length >= 0x1_0000_0000 && offset + length - 0x1_0000_0000 <= size
  }

  /** A count of -1 wraps from every place in the file but its very beginning, and comes back as the result. */
  lemma MinusOneWraps(size: nat, offset: nat)
    requires 1 <= offset <= size <= MAX_FILE_SIZE
    ensures EndWraps(size, offset, 0xFFFF_FFFF) && Signed32(Clipped(size, offset, 0xFFFF_FFFF)) == -1
    ensures !EndWraps(size, 0, 0xFFFF_FFFF) && Clipped(size, 0, 0xFFFF_FFFF) == size
  {
  }

  ghost function ReadResult(image: seq<Byte>, inode: nat, offset: nat, length: nat): int
    requires WellFormed(image)
  {
    if inode >= InodeCount(image) || offset > FileSize(image, inode) then 0
    else if !BlocksValid(image, inode) then -1
    else Signed32(Clipped(FileSize(image, inode), offset, length))
  }

  ghost function ReadBytes(image: seq<Byte>, inode: nat, offset: nat, length: nat): seq<Byte>
    requires WellFormed(image)
  {
    if inode >= InodeCount(image) || offset > FileSize(image, inode) || !BlocksValid(image, inode) then []
    else Cut(Stored(image, inode)[offset..], Clipped(FileSize(image, inode), offset, length))
  }

  method ReadData(image: seq<Byte>, inode: nat, offset: nat, buf: array<Byte>, at: nat, length: nat) returns (r: int)
    requires WellFormed(image)
    requires offset < 0x1_0000_0000 && length < 0x1_0000_0000
    requires at + |ReadBytes(image, inode, offset, length)| <= buf.Length
    modifies buf
    ensures r == ReadResult(image, inode, offset, length)
    ensures buf[..] == Splice(old(buf[..]), at, ReadBytes(image, inode, offset, length))
  {
    if inode >= InodeCount(image) || offset > FileSize(image, inode) {
      return 0;
    }
    var size := FileSize(image, inode);
    var clipped := Clipped(size, offset, length);
    var blocks := BlocksFor(size);
    for i := 0 to blocks
      invariant forall j :: 0 <= j < i ==> FileBlock(image, inode, j) < BlockCount(image)
    {
      if FileBlock(image, inode, i) >= BlockCount(image) {
        return -1;
      }
    }
    CopyBlocks(image, BlockStarts(image, inode), offset, buf, at, clipped);
    return Signed32(clipped);
  }

  /** The block loop of read_data: one memcpy for the wanted part of each block. */
  method CopyBlocks(image: seq<Byte>, starts: seq<nat>, offset: nat, buf: array<Byte>, at: nat, length: nat)
    requires StartsIn(image, starts)
    requires offset <= |starts| * 4096 && at + Min(length, |starts| * 4096 - offset) <= buf.Length
    modifies buf
    ensures buf[..] == Splice(old(buf[..]), at, Cut(Joined(image, starts)[offset..], length))
  {
    hide Joined, Splice;
    ghost var wanted, before := Joined(image, starts)[offset..], buf[..];
    var startBlock, startOffset := offset / 4096, offset % 4096;
    var i, done, remain := startBlock, 0, length;
    NothingSpliced(before, at, wanted[..0]);
    while i < |starts| && remain > 0
      invariant 0 <= remain && done + remain == length && done <= |wanted|
      invariant startBlock <= i
      invariant i == startBlock ==> done == 0
      invariant i > startBlock && remain > 0 ==> i <= |starts| && offset + done == i * 4096
      invariant buf[..] == Splice(before, at, wanted[..done])
    {
      var blockOffset := if i == startBlock then startOffset else 0;
      var n := PartLength(blockOffset, remain);
      var src := starts[i] + blockOffset;
      WantedPart(image, starts, offset, done, i, blockOffset, n);
      CopyNext(buf, at, done, image, src, n, before, wanted);
      i, done, remain := i + 1, done + n, remain - n;
    }
    assert wanted[..done] == Cut(wanted, length);
  }

  lemma NothingSpliced(s: seq<Byte>, at: nat, part: seq<Byte>)
    requires at <= |s| && part == []
    ensures Splice(s, at, part) == s
  {
  }

  lemma WantedPart(image: seq<Byte>, starts: seq<nat>, offset: nat, done: nat, i: nat, from: nat, n: nat)
    requires StartsIn(image, starts) && i < |starts| && from + n <= 4096
    requires offset + done == i * 4096 + from
    ensures offset <= |Joined(image, starts)| && done + n <= |Joined(image, starts)[offset..]|
    ensures Joined(image, starts)[offset..][done..done + n] == image[starts[i] + from..starts[i] + from + n]
  {
    JoinedPart(image, starts, i, from, n);
  }

  /** Appends to what has been copied the n bytes that follow, all of them in block i. */
  method CopyNext(buf: array<Byte>, at: nat, done: nat, image: seq<Byte>, src: nat, n: nat,
                  ghost before: seq<Byte>, ghost wanted: seq<Byte>)
    requires src + n <= |image| && done + n <= |wanted| && at + done + n <= buf.Length == |before|
    requires wanted[done..done + n] == image[src..src + n]
    requires buf[..] == Splice(before, at, wanted[..done])
    modifies buf
    ensures buf[..] == Splice(before, at, wanted[..done + n])
  {
    CopyBytes(buf, at + done, image, src, n);
    assert wanted[..done + n] == wanted[..done] + wanted[done..done + n];
  }

  /** The wanted part of one block lies contiguously inside that block of the image. */
  lemma {:induction false} JoinedPart(image: seq<Byte>, starts: seq<nat>, i: nat, from: nat, n: nat)
    requires StartsIn(image, starts) && i < |starts| && from + n <= 4096
    ensures i * 4096 + from + n <= |Joined(image, starts)|
    ensures Joined(image, starts)[i * 4096 + from..i * 4096 + from + n] == image[starts[i] + from..starts[i] + from + n]
  {
    var first, rest, lo := image[starts[0]..starts[0] + 4096], Joined(image, starts[1..]), i * 4096 + from;
    assert Joined(image, starts) == first + rest;
    SliceOfSum(first, rest, lo, lo + n);
    if i == 0 {
      SliceOfSlice(image, starts[0], starts[0] + 4096, from, from + n);
    } else {
      JoinedPart(image, starts[1..], i - 1, from, n);
    }
  }

  method CopyBytes(buf: array<Byte>, at: nat, src: seq<Byte>, from: nat, n: nat)
    requires at + n <= buf.Length && from + n <= |src|
    modifies buf
    ensures buf[..] == Splice(old(buf[..]), at, src[from..from + n])
  {
    forall k | 0 <= k < n {
      buf[at + k] := src[from + k];
    }
  }

  /** How much of a block one memcpy takes: up to the block's end, or less when less is wanted. */
  function PartLength(blockOffset: nat, remain: nat): (n: nat)
    requires blockOffset < 4096
    ensures blockOffset + n <= 4096 && n <= remain && (blockOffset + n == 4096 || n == remain)
  {
    if remain >= 4096 || (remain < 4096 && blockOffset + remain > 4096) then 4096 - blockOffset else remain
  }

  /** s with the stretch from at on overwritten by part. */
  function Splice(s: seq<Byte>, at: nat, part: seq<Byte>): (r: seq<Byte>)
    requires at + |part| <= |s|
    ensures |r| == |s|
  {
    s[..at] + part + s[at + |part|..]
  }

  /** The cut length is the right one, as the signed result shows, exactly when the end does not wrap. */
  lemma ClippedIsRight(size: nat, offset: nat, length: nat)
    requires offset <= size <= MAX_FILE_SIZE && length < 0x1_0000_0000
    ensures !EndWraps(size, offset, length) ==>
              Clipped(size, offset, length) == Min(length, size - offset)
    ensures EndWraps(size, offset, length) <==> Signed32(Clipped(size, offset, length)) != Min(length, size - offset)
    ensures EndWraps(size, offset, length) ==> Signed32(Clipped(size, offset, length)) < 0
  {
    var total := offset + length;
    assert Wrap32(total) == if total < 0x1_0000_0000 then total else total - 0x1_0000_0000;
  }

  /**
   * A read returns exactly the bytes of the file between offset and offset + length that exist,
   * unless the end of the request wraps round to a position inside the file; then it never does.
   */
  lemma ReadIsSlice(image: seq<Byte>, inode: nat, offset: nat, length: nat)
    requires Readable(image, inode)
    requires offset < 0x1_0000_0000 && length < 0x1_0000_0000
    ensures var size := FileSize(image, inode);
            !(offset <= size && EndWraps(size, offset, length)) <==>
            && ReadResult(image, inode, offset, length) == |Slice(Content(image, inode), offset, length)|
            && ReadBytes(image, inode, offset, length) == Slice(Content(image, inode), offset, length)
  {
    var size := FileSize(image, inode);
    if offset <= size {
      ClippedIsRight(size, offset, length);
      var content := Content(image, inode);
      if !EndWraps(size, offset, length) {
        assert ReadBytes(image, inode, offset, length) == content[offset..offset + Min(length, size - offset)];
      }
    }
  }

  /** The bytes of a file from offset on, at most length of them. */
  function Slice(content: seq<Byte>, offset: nat, length: nat): seq<Byte> {
    if offset > |content| then [] else Cut(content[offset..], length)
  }

  lemma SliceBound(content: seq<Byte>, offset: nat, length: nat)
    ensures |Slice(content, offset, length)| <= length
    ensures offset <= |content| ==> offset + |Slice(content, offset, length)| <= |content|
  {
  }
}
