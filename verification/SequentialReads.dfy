// Reading a file through one descriptor, call after call: what the position means to a program.
module SequentialReads {
  import opened Bytes
  import opened Descriptors
  import opened ProcessStacks
  import opened KernelTables
  import opened Kernel
  import opened FileCalls
  import FS = FileSystem

  // ---- Any sequence of requests ----

  /** What successive reads of these sizes deliver, from a position on. */
  function Deliveries(content: seq<Byte>, position: nat, sizes: seq<nat>): seq<seq<Byte>>
    decreases |sizes|
  {
    if sizes == [] then [] else
      var chunk := FS.Slice(content, position, sizes[0]);
      [chunk] + Deliveries(content, position + |chunk|, sizes[1..])
  }

  function Sum(sizes: seq<nat>): nat {
    if sizes == [] then 0 else sizes[0] + Sum(sizes[1..])
  }

  lemma SliceSplits(content: seq<Byte>, position: nat, a: nat, b: nat)
    requires position <= |content|
    ensures var first := FS.Slice(content, position, a);
            && position + |first| == Min(|content|, position + a)
            && FS.Slice(content, position, a + b) == first + FS.Slice(content, position + |first|, b)
  {
  }

  lemma NothingRead(content: seq<Byte>, position: nat)
    ensures FS.Slice(content, position, 0) == []
  {
  }

  /** The chunks laid end to end are the bytes one read of the total size would have delivered. */
  lemma {:induction false} ChunksReassemble(content: seq<Byte>, position: nat, sizes: seq<nat>)
    requires position <= |content|
    ensures Flat(Deliveries(content, position, sizes)) == FS.Slice(content, position, Sum(sizes))
    ensures position + |Flat(Deliveries(content, position, sizes))| == Min(|content|, position + Sum(sizes))
    decreases |sizes|
  {
    hide FS.Slice;
    if sizes == [] {
      NothingRead(content, position);
    } else {
      var chunk := FS.Slice(content, position, sizes[0]);
      SliceSplits(content, position, sizes[0], Sum(sizes[1..]));
      ChunksReassemble(content, position + |chunk|, sizes[1..]);
    }
  }

  // ---- On the kernel ----

  lemma OwnTwice(s: System, fds: seq<Descriptor>, next: seq<Descriptor>)
    requires Ok(s) && Booted(s) && TableOk(fds) && TableOk(next)
    ensures Ok(OwnStep(s, fds, Keep)) && Booted(OwnStep(s, fds, Keep))
    ensures OwnStep(OwnStep(s, fds, Keep), next, Keep) == OwnStep(s, next, Keep)
    ensures TopTable(OwnStep(s, fds, Keep)) == fds
  {
    StepOk(s, Own(fds, Keep));
  }

  /** A process that puts its descriptor table back as it was has changed nothing. */
  lemma OwnNothing(s: System)
    requires Ok(s) && Booted(s)
    ensures OwnStep(s, TopTable(s), Keep) == s
  {
    var c := s.consoles[s.running];
    assert c.stack[..|c.stack| - 1] + [Top(s)] == c.stack;
    assert s.consoles[s.running := c] == s.consoles;
  }

  /** The running process, started from s, has this file open in slot fd and has read it up to a position. */
  ghost predicate ReadUpTo(k: Kernel, s: System, fds: seq<Descriptor>, fd: nat, content: seq<Byte>, position: nat)
    reads k, k.processArray, k.pcbArray, k.terminals, k.screens
  {
    && FilesReadable(k.image) && k.Valid() && Ok(s) && Booted(s) && TableOk(fds) && fd < OPEN_FILES
    && fds[fd].driver == Some(Regular) && fds[fd].position == 0 && content == FileOf(k.image, fds[fd])
    && position <= |content| <= FS.MAX_FILE_SIZE
    && k.sys == OwnStep(s, Advanced(fds, fd, position), Keep)
  }

  lemma FileFits(image: seq<Byte>, d: Descriptor)
    requires FilesReadable(image)
    ensures |FileOf(image, d)| <= FS.MAX_FILE_SIZE
  {
  }

  /** One more read delivers the next bytes of the file and moves the position past them, and nothing else. */
  method ReadOn(k: Kernel, fd: nat, buf: array<Byte>, at: nat, nbytes: nat,
                ghost s: System, ghost fds: seq<Descriptor>, ghost content: seq<Byte>, ghost position: nat)
    returns (r: nat)
    requires ReadUpTo(k, s, fds, fd, content, position) && nbytes < 0x8000_0000 && at + nbytes <= buf.Length
    modifies k`sys, k.pcbArray, buf
    ensures r == |FS.Slice(content, position, nbytes)|
    ensures buf[..] == FS.Splice(old(buf[..]), at, FS.Slice(content, position, nbytes))
    ensures ReadUpTo(k, s, fds, fd, content, position + r)
  {
    hide Represents, Ok, Got, Returned, FS.Slice;
    ghost var now := Advanced(fds, fd, position);
    BeforeRead(k.image, s, fds, fd, position);
    ReadsItsFile(k.image, now[fd], nbytes);
    FS.SliceBound(content, position, nbytes);
    var n := ReadDescriptor(k, fd, buf, at, nbytes);
    r := n;
    AfterRead(s, fds, fd, position, r);
  }

  /** The bytes one read delivers. */
  method ReadChunk(k: Kernel, fd: nat, buf: array<Byte>, size: nat,
                   ghost s: System, ghost fds: seq<Descriptor>, ghost content: seq<Byte>, ghost position: nat)
    returns (chunk: seq<Byte>)
    requires ReadUpTo(k, s, fds, fd, content, position) && size <= buf.Length && size < 0x8000_0000
    modifies k`sys, k.pcbArray, buf
    ensures chunk == FS.Slice(content, position, size)
    ensures ReadUpTo(k, s, fds, fd, content, position + |chunk|)
  {
    hide Represents, Ok, TableOk, FilesReadable, OwnStep;
    ghost var before := buf[..];
    var r := ReadOn(k, fd, buf, 0, size, s, fds, content, position);
    SplicedFirst(before, FS.Slice(content, position, size));
    assert buf[..][..r] == buf[..r];
    chunk := buf[..r];
  }

  /** Reads of any sizes, one after another: each delivers its chunk, and the position is the bytes delivered. */
  method ReadAll(k: Kernel, fd: nat, buf: array<Byte>, sizes: seq<nat>,
                 ghost s: System, ghost fds: seq<Descriptor>, ghost content: seq<Byte>, ghost position: nat)
    returns (chunks: seq<seq<Byte>>)
    requires ReadUpTo(k, s, fds, fd, content, position)
    requires forall i :: 0 <= i < |sizes| ==> sizes[i] <= buf.Length && sizes[i] < 0x8000_0000
    modifies k`sys, k.pcbArray, buf
    ensures chunks == Deliveries(content, position, sizes)
    ensures ReadUpTo(k, s, fds, fd, content, position + |Flat(chunks)|)
    decreases |sizes|
  {
    hide ReadUpTo, FS.Slice;
    if sizes == [] {
      return [];
    }
    var chunk := ReadChunk(k, fd, buf, sizes[0], s, fds, content, position);
    var rest := ReadAll(k, fd, buf, sizes[1..], s, fds, content, position + |chunk|);
    assert ([chunk] + rest)[1..] == rest;
    chunks := [chunk] + rest;
  }

  lemma SplicedFirst(before: seq<Byte>, part: seq<Byte>)
    requires |part| <= |before|
    ensures FS.Splice(before, 0, part)[..|part|] == part
  {
  }

  lemma BeforeRead(image: seq<Byte>, s: System, fds: seq<Descriptor>, fd: nat, position: nat)
    requires FilesReadable(image) && Ok(s) && Booted(s) && TableOk(fds) && fd < OPEN_FILES
    requires fds[fd].driver == Some(Regular) && fds[fd].position + position <= FS.MAX_FILE_SIZE
    ensures var now := Advanced(fds, fd, position);
            && Ok(OwnStep(s, now, Keep)) && Booted(OwnStep(s, now, Keep)) && TopTable(OwnStep(s, now, Keep)) == now
            && now[fd] == fds[fd].(position := fds[fd].position + position)
            && FileOf(image, now[fd]) == FileOf(image, fds[fd])
  {
    AdvancedOk(fds, fd, position);
    OwnTwice(s, Advanced(fds, fd, position), fds);
  }

  lemma AfterRead(s: System, fds: seq<Descriptor>, fd: nat, position: nat, n: nat)
    requires Ok(s) && Booted(s) && TableOk(fds) && fd < OPEN_FILES
    requires fds[fd].driver == Some(Regular) && fds[fd].position + position + n <= FS.MAX_FILE_SIZE
    ensures var now := Advanced(fds, fd, position);
            && Ok(OwnStep(s, now, Keep)) && Booted(OwnStep(s, now, Keep))
            && OwnStep(OwnStep(s, now, Keep), Advanced(now, fd, n), Keep)
               == OwnStep(s, Advanced(fds, fd, position + n), Keep)
  {
    var now := Advanced(fds, fd, position);
    AdvancedOk(fds, fd, position);
    AdvancedOk(now, fd, n);
    OwnTwice(s, now, Advanced(now, fd, n));
    assert Advanced(now, fd, n) == Advanced(fds, fd, position + n);
  }
}
