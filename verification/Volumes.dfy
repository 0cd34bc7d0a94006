// Images of the file system written by a program that knows only the layout on paper, and what the kernel reads there.
module Volumes {
  import opened Bytes
  import opened CStrings
  import FS = FileSystem

  // ---- Writing an image ----

  function Zeros(n: nat): (s: seq<Byte>)
    ensures |s| == n
  {
    seq(n, _ => NUL)
  }

  datatype Listed = Listed(name: seq<Byte>, kind: nat, inode: nat)
  datatype Inode = Inode(size: nat, blocks: seq<nat>)
  datatype Volume = Volume(entries: seq<Listed>, inodes: seq<Inode>, blocks: seq<seq<Byte>>)

  predicate EntryFits(e: Listed) {
    |e.name| <= 32 && NUL !in e.name && e.kind <= 2 && e.inode < 0x1_0000_0000
  }

  predicate InodeFits(i: Inode, blocks: nat) {
    |i.blocks| <= 1023 && i.size <= |i.blocks| * 4096
    && forall k :: 0 <= k < |i.blocks| ==> i.blocks[k] < blocks < 0x1_0000_0000
  }

  /** What an image has room for. */
  predicate Fits(v: Volume) {
    && |v.entries| <= 63 && (1 + |v.inodes| + |v.blocks|) * 4096 < 0x1_0000_0000
    && (forall i :: 0 <= i < |v.entries| ==> EntryFits(v.entries[i]))
    && (forall n :: 0 <= n < |v.inodes| ==> InodeFits(v.inodes[n], |v.blocks|))
    && (forall b :: 0 <= b < |v.blocks| ==> |v.blocks[b]| == 4096)
  }

  /** 64 bytes: the name, its type, its inode, and 24 reserved bytes. */
  function EntryBytes(e: Listed): (s: seq<Byte>)
    requires EntryFits(e)
    ensures |s| == 64
  {
    e.name + Zeros(32 - |e.name|) + FS.Num32(e.kind) + FS.Num32(e.inode) + Zeros(24)
  }

  function EntryParts(v: Volume): (parts: seq<seq<Byte>>)
    requires Fits(v)
    ensures |parts| == |v.entries| && forall i :: 0 <= i < |parts| ==> |parts[i]| == 64
  {
    seq(|v.entries|, i requires 0 <= i < |v.entries| => EntryBytes(v.entries[i]))
  }

  /** The three counts, 52 reserved bytes, and the entries. */
  function BootBlock(v: Volume): (s: seq<Byte>)
    requires Fits(v)
    ensures |s| == 4096
  {
    FlatLength(EntryParts(v), 64);
    FS.Num32(|v.entries|) + FS.Num32(|v.inodes|) + FS.Num32(|v.blocks|) + Zeros(52) + Flat(EntryParts(v))
    + Zeros(4096 - 64 - 64 * |v.entries|)
  }

  function NumberParts(numbers: seq<nat>): (parts: seq<seq<Byte>>)
    requires forall k :: 0 <= k < |numbers| ==> numbers[k] < 0x1_0000_0000
    ensures |parts| == |numbers| && forall k :: 0 <= k < |parts| ==> |parts[k]| == 4
  {
    seq(|numbers|, k requires 0 <= k < |numbers| => FS.Num32(numbers[k]))
  }

  /** The size in bytes and the numbers of the data blocks. */
  function InodeBlock(i: Inode, blocks: nat): (s: seq<Byte>)
    requires InodeFits(i, blocks)
    ensures |s| == 4096
  {
    FlatLength(NumberParts(i.blocks), 4);
    FS.Num32(i.size) + Flat(NumberParts(i.blocks)) + Zeros(4092 - 4 * |i.blocks|)
  }

  function InodeBlocks(v: Volume): (parts: seq<seq<Byte>>)
    requires Fits(v)
    ensures |parts| == |v.inodes| && forall n :: 0 <= n < |parts| ==> |parts[n]| == 4096
  {
    seq(|v.inodes|, n requires 0 <= n < |v.inodes| => InodeBlock(v.inodes[n], |v.blocks|))
  }

  /** The boot block, the inodes and the data blocks, one after another. */
  function Blocks(v: Volume): (parts: seq<seq<Byte>>)
    requires Fits(v)
    ensures |parts| == 1 + |v.inodes| + |v.blocks| && forall k :: 0 <= k < |parts| ==> |parts[k]| == 4096
  {
    [BootBlock(v)] + InodeBlocks(v) + v.blocks
  }

  function Image(v: Volume): seq<Byte>
    requires Fits(v)
  {
    Flat(Blocks(v))
  }

  // ---- Parts of equal length ----

  lemma {:induction false} FlatLength(parts: seq<seq<Byte>>, size: nat)
    requires forall i :: 0 <= i < |parts| ==> |parts[i]| == size
    ensures |Flat(parts)| == |parts| * size
  {
    if parts != [] {
      FlatLength(parts[1..], size);
      assert |parts| * size == size + (|parts| - 1) * size;
    }
  }

  /** Part i lies at i times the size of a part. */
  lemma PartOfFlat(parts: seq<seq<Byte>>, size: nat, i: nat)
    requires i < |parts| && forall k :: 0 <= k < |parts| ==> |parts[k]| == size
    ensures i * size + size <= |Flat(parts)| == |parts| * size
    ensures Flat(parts)[i * size..i * size + size] == parts[i]
  {
    var before, behind := parts[..i], parts[i + 1..];
    assert parts == before + ([parts[i]] + behind);
    FlatInParts(before, [parts[i]] + behind);
    FlatLength(before, size);
    FlatLength(behind, size);
    FlatLength(parts, size);
    assert ([parts[i]] + behind)[1..] == behind;
    assert Flat(parts) == Flat(before) + (parts[i] + Flat(behind));
  }

  /** Block k of the image. */
  lemma BlockAt(v: Volume, k: nat)
    requires Fits(v) && k < 1 + |v.inodes| + |v.blocks|
    ensures |Image(v)| == (1 + |v.inodes| + |v.blocks|) * 4096 && k * 4096 + 4096 <= |Image(v)|
    ensures Image(v)[k * 4096..k * 4096 + 4096] == Blocks(v)[k]
  {
    PartOfFlat(Blocks(v), 4096, k);
  }

  /** A number in block k of the image. */
  lemma NumberAt(v: Volume, k: nat, at: nat, n: nat)
    requires Fits(v) && k < 1 + |v.inodes| + |v.blocks| && at + 4 <= 4096 && n < 0x1_0000_0000
    requires Blocks(v)[k][at..at + 4] == FS.Num32(n)
    ensures k * 4096 + at + 4 <= |Image(v)| && FS.U32(Image(v), k * 4096 + at) == n
  {
    hide Image, Blocks, FS.Num32, FS.LittleEndian;
    BlockAt(v, k);
    SliceOfSlice(Image(v), k * 4096, k * 4096 + 4096, at, at + 4);
    FS.NumberComesBack(n);
  }

  // ---- What the kernel reads ----

  lemma CountsComeBack(v: Volume)
    requires Fits(v)
    ensures |Image(v)| == (1 + |v.inodes| + |v.blocks|) * 4096
    ensures FS.EntryCount(Image(v)) == |v.entries| && FS.InodeCount(Image(v)) == |v.inodes|
    ensures FS.BlockCount(Image(v)) == |v.blocks|
  {
    hide Image, FS.Num32, Flat, EntryParts;
    BlockAt(v, 0);
    var boot := BootBlock(v);
    assert boot[0..4] == FS.Num32(|v.entries|) && boot[4..8] == FS.Num32(|v.inodes|);
    assert boot[8..12] == FS.Num32(|v.blocks|);
    NumberAt(v, 0, 0, |v.entries|);
    NumberAt(v, 0, 4, |v.inodes|);
    NumberAt(v, 0, 8, |v.blocks|);
  }

  lemma EntryAt(v: Volume, i: nat)
    requires Fits(v) && i < |v.entries|
    ensures |Image(v)| >= 4096 && FS.Entry(Image(v), i) == EntryBytes(v.entries[i])
  {
    hide Image, FS.Num32, Flat, EntryBytes;
    BlockAt(v, 0);
    var boot, entries := BootBlock(v), Flat(EntryParts(v));
    PartOfFlat(EntryParts(v), 64, i);
    assert boot[64..64 + |entries|] == entries;
    SliceOfSlice(boot, 64, 64 + |entries|, i * 64, i * 64 + 64);
    SliceOfSlice(Image(v), 0, 4096, 64 * i + 64, 64 * i + 128);
  }

  /** The directory entry gives back what was written: name, type and inode. */
  lemma EntryComesBack(v: Volume, i: nat)
    requires Fits(v) && i < |v.entries|
    ensures |Image(v)| >= 4096
    ensures var e := FS.Entry(Image(v), i);
            FS.Name(e) == v.entries[i].name && FS.FileType(e) == v.entries[i].kind
            && FS.InodeOf(e) == v.entries[i].inode
  {
    hide Image, FS.Num32, FS.LittleEndian;
    EntryAt(v, i);
    var w := v.entries[i];
    var e := EntryBytes(w);
    assert e[32..36] == FS.Num32(w.kind) && e[36..40] == FS.Num32(w.inode);
    FS.NumberComesBack(w.kind);
    FS.NumberComesBack(w.inode);
    TextIsPrefix(e);
    assert e[..|w.name|] == w.name;
    if |w.name| < 32 {
      assert e[|w.name|] == NUL;
      TextIs(e, |w.name|);
    } else {
      TextAgrees(e, e, 32);
    }
  }

  lemma InodeComesBack(v: Volume, n: nat)
    requires Fits(v) && n < |v.inodes|
    ensures |Image(v)| >= (n + 2) * 4096 && FS.FileSize(Image(v), n) == v.inodes[n].size
    ensures forall k :: 0 <= k < |v.inodes[n].blocks| ==> FS.FileBlock(Image(v), n, k) == v.inodes[n].blocks[k]
  {
    hide Image, FS.Num32, FS.U32;
    BlockAt(v, n + 1);
    var inode := v.inodes[n];
    var block, numbers := InodeBlock(inode, |v.blocks|), Flat(NumberParts(inode.blocks));
    assert Blocks(v)[n + 1] == block && block[0..4] == FS.Num32(inode.size);
    NumberAt(v, n + 1, 0, inode.size);
    FlatLength(NumberParts(inode.blocks), 4);
    assert block[4..4 + |numbers|] == numbers;
    forall k | 0 <= k < |inode.blocks| ensures FS.FileBlock(Image(v), n, k) == inode.blocks[k] {
      PartOfFlat(NumberParts(inode.blocks), 4, k);
      SliceOfSlice(block, 4, 4 + |numbers|, k * 4, k * 4 + 4);
      NumberAt(v, n + 1, 4 + 4 * k, inode.blocks[k]);
    }
  }

  /** The image is one the kernel can work with. */
  lemma ImageIsWellFormed(v: Volume)
    requires Fits(v)
    ensures FS.WellFormed(Image(v)) && forall n :: 0 <= n < |v.inodes| ==> FS.Readable(Image(v), n)
  {
    hide Image, FS.Entry, FS.FileType, FS.FileSize, FS.FileBlock, FS.EntryCount, FS.InodeCount, FS.BlockCount;
    CountsComeBack(v);
    forall i | 0 <= i < |v.entries| ensures FS.FileType(FS.Entry(Image(v), i)) <= FS.REGULAR_FILE {
      EntryComesBack(v, i);
    }
    forall n | 0 <= n < |v.inodes|
      ensures |Image(v)| >= (n + 2) * 4096 && FS.FileSize(Image(v), n) <= FS.MAX_FILE_SIZE
      ensures FS.BlocksValid(Image(v), n)
    {
      InodeComesBack(v, n);
    }
  }

  /** The file as it was written: the data blocks listed for it end to end, cut to its size. */
  function Written(v: Volume, n: nat): (s: seq<Byte>)
    requires Fits(v) && n < |v.inodes|
    ensures |s| == v.inodes[n].size
  {
    FlatLength(FileBlocks(v, v.inodes[n].blocks), 4096);
    Flat(FileBlocks(v, v.inodes[n].blocks))[..v.inodes[n].size]
  }

  function FileBlocks(v: Volume, numbers: seq<nat>): (parts: seq<seq<Byte>>)
    requires Fits(v) && forall k :: 0 <= k < |numbers| ==> numbers[k] < |v.blocks|
    ensures |parts| == |numbers| && forall k :: 0 <= k < |parts| ==> |parts[k]| == 4096
  {
    seq(|numbers|, k requires 0 <= k < |numbers| => v.blocks[numbers[k]])
  }

  lemma {:induction false} JoinedIsFlat(v: Volume, starts: seq<nat>, numbers: seq<nat>)
    requires Fits(v) && FS.StartsIn(Image(v), starts) && |starts| == |numbers|
    requires forall k :: 0 <= k < |numbers| ==> numbers[k] < |v.blocks|
                                                && starts[k] == (|v.inodes| + 1 + numbers[k]) * 4096
    ensures FS.Joined(Image(v), starts) == Flat(FileBlocks(v, numbers))
    decreases |starts|
  {
    hide Image, BootBlock, InodeBlocks, EntryFits, InodeFits;
    if starts != [] {
      BlockAt(v, |v.inodes| + 1 + numbers[0]);
      assert Blocks(v)[|v.inodes| + 1 + numbers[0]] == v.blocks[numbers[0]];
      JoinedIsFlat(v, starts[1..], numbers[1..]);
      assert FileBlocks(v, numbers)[1..] == FileBlocks(v, numbers[1..]);
    }
  }

  /** What the kernel takes for the content of inode n is what was written there. */
  lemma FileComesBack(v: Volume, n: nat)
    requires Fits(v) && n < |v.inodes|
    ensures FS.Readable(Image(v), n) && FS.Content(Image(v), n) == Written(v, n)
  {
    hide Image, FS.WellFormed, FS.FileSize, FS.FileBlock, FS.Joined;
    ImageIsWellFormed(v);
    CountsComeBack(v);
    InodeComesBack(v, n);
    var inode, used := v.inodes[n], FS.BlocksFor(v.inodes[n].size);
    var first, rest := inode.blocks[..used], inode.blocks[used..];
    JoinedIsFlat(v, FS.BlockStarts(Image(v), n), first);
    assert FileBlocks(v, inode.blocks) == FileBlocks(v, first) + FileBlocks(v, rest);
    FlatInParts(FileBlocks(v, first), FileBlocks(v, rest));
    FlatLength(FileBlocks(v, first), 4096);
  }

  predicate NamesDiffer(v: Volume) {
    forall i, j :: 0 <= i < j < |v.entries| ==> v.entries[i].name != v.entries[j].name
  }

  /** A name written into the directory is found there. */
  lemma NameIsFound(v: Volume, i: nat)
    requires Fits(v) && NamesDiffer(v) && i < |v.entries|
    ensures FS.WellFormed(Image(v)) && FS.Lookup(Image(v), v.entries[i].name + [NUL]) == Some(i)
  {
    hide Image, FS.WellFormed, FS.Entry, FS.Name, FS.Lookup;
    ImageIsWellFormed(v);
    CountsComeBack(v);
    forall j | 0 <= j < |v.entries| ensures FS.Name(FS.Entry(Image(v), j)) == v.entries[j].name {
      EntryComesBack(v, j);
    }
    FS.ListedNameIsFound(Image(v), i);
  }
}
