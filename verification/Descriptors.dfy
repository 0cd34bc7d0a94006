// The per-process descriptor table of student-distrib/system_call.h and the drivers its slots name.
module Descriptors {
  import opened Bytes
  import FS = FileSystem

  const OPEN_FILES: nat := 8

  datatype Driver = Stdin | Stdout | Rtc | Directory | Regular

  /** One slot: the driver's operation table (or no pointer), inode number, file position and the in-use flag. */
  datatype Descriptor = Descriptor(driver: Option<Driver>, inode: int, position: int, inUse: bool)

  const CLOSED := Descriptor(None, -1, 0, false)

  /** The table execute leaves behind: everything closed but stdin and stdout. */
  const FRESH_TABLE: seq<Descriptor> := [
    Descriptor(Some(Stdin), -1, 0, true), Descriptor(Some(Stdout), -1, 0, true),
    CLOSED, CLOSED, CLOSED, CLOSED, CLOSED, CLOSED]

  /**
   * What every live process's table satisfies: a slot is in use exactly when it names a driver, a free slot
   * is wholly blank, slots 0 and 1 are the console, the console appears nowhere else, and an open file has an
   * inode and a position no file goes past.
   */
  ghost predicate TableOk(fds: seq<Descriptor>) {
    && |fds| == OPEN_FILES
    && fds[0].driver == Some(Stdin) && fds[1].driver == Some(Stdout)
    && (forall i :: 0 <= i < |fds| ==> (fds[i].inUse <==> fds[i].driver.Some?))
    && (forall i :: 0 <= i < |fds| && !fds[i].inUse ==> fds[i] == CLOSED)
    && (forall i :: 2 <= i < |fds| ==> fds[i].driver != Some(Stdin) && fds[i].driver != Some(Stdout))
    && (forall i :: 0 <= i < |fds| && fds[i].driver == Some(Regular) ==> FilePlace(fds[i]))
  }

  predicate FilePlace(d: Descriptor) {
    d.inode >= 0 && 0 <= d.position <= FS.MAX_FILE_SIZE
  }

  lemma FreshTableOk()
    ensures TableOk(FRESH_TABLE)
  {
  }

  /** The lowest slot in 2..7 that is free, or 8. */
  function FirstFree(fds: seq<Descriptor>, i: nat): (fd: nat)
    requires |fds| == OPEN_FILES && i <= OPEN_FILES
    ensures i <= fd <= OPEN_FILES && (fd < OPEN_FILES ==> !fds[fd].inUse)
    ensures forall j :: i <= j < fd ==> fds[j].inUse
    decreases OPEN_FILES - i
  {
    if i == OPEN_FILES || !fds[i].inUse then i else FirstFree(fds, i + 1)
  }

  /** The scan open makes for a slot. */
  method FindFree(fds: seq<Descriptor>) returns (fd: nat)
    requires |fds| == OPEN_FILES
    ensures fd == FirstFree(fds, 2)
  {
    fd := 2;
    while fd < OPEN_FILES
      invariant 2 <= fd <= OPEN_FILES && FirstFree(fds, fd) == FirstFree(fds, 2)
    {
      if !fds[fd].inUse {
        break;
      }
      fd := fd + 1;
    }
  }
}
