# A small kernel and two programs, modelled and proved

The repository is an x86 teaching kernel with six process slots, three text terminals, a read-only block file system and
a real-time clock shared by all processes, together with user programs for it. This project models the parts of it that
hold state and gives the proofs that they keep it right.

- **Processes.** `ProcessStacks` is the meaning: three terminals, each with a stack of processes, one of them running, the
  others parked. `KernelTables` says how the kernel's global tables represent such stacks and what the tables then say by
  themselves: three disjoint parent chains that hold exactly the live pids, and the memory mapped for the running process.
  `Kernel`, `SystemCall`, `Scheduling`, `FileCalls` and `Rtc` are the code, as methods on one object with the global
  variables as fields; each method is proved to be one step on the stacks. `Runs` and
  `Handovers` prove what holds of every run: boot in six ticks, round robin, every context loaded or returned to saved by
  the right earlier event, no interrupt lost, clock reads that keep time.
- **Everything together.** `KernelCalls` is any one interrupt, keystroke or call on tables and devices, `KernelRuns` any
  sequence of them, with what timers load, halts return to and reads deliver; `ReadRuns` says what programs read over a
  run: consecutive stretches of their files, and the lines typed at their terminals; `ProgramRuns` what comes of programs
  preempted at any place: readers of the directory, and cat from its file to its console.
- **Terminals.** `Screen` is one output step and `ScreenLines` what whole lines look like; `Screens` is the code twice over,
  on video memory and on a terminal's buffer; `ConsoleRuns` shows three independent consoles. `LineEditing` is the ideal
  line editor, `KeyMap` its layouts against a list of keys, `Keyboard` the buffers, `TypingRuns` any run of keystrokes on
  them, `Typewriters` what their readers see, `Terminals` the calls that tie screens, keyboard and process tables
  together, `KeyRuns` modifiers held over a run and that the line that shows is the line that is read.
- **Files.** `FileSystem` works on the raw bytes of the image and compares block-mapped reads with a flat slice;
  `SequentialReads` follows a descriptor through many reads, `Sources` a file or the clock from open to close. `Volumes`
  writes images by the layout on paper and proves that everything read back is what was written; `VolumeCalls` what open,
  read, execute, cat, ls and grep make of such an image.
- **Programs.** `Grep` is the 1024-byte window against whole lines; `GrepProgram` and `UserPrograms` run grep, cat and ls
  on the kernel's own calls. `Blinker` is the fish program's linked list over its static pool and what it draws,
  `Blinking` its timing over any run of calls.
- **Text.** `CStrings`, `Command` and `NumberFormat` are the string routines, the command-line parser and number output.

Code that changes things in place is a class or a method over arrays with its loops; contexts saved by the assembly are
opaque tokens; a C pointer to a string is the sequence of bytes readable from it.

Where the code does not do what one would expect, the model follows the code, and the exact condition is proved:

- A read is the flat slice unless the 32-bit sum of offset and length wraps to a position inside the file
  (`FileSystem.ReadIsSlice`); a byte count of -1 does wrap (`FileSystem.MinusOneWraps`).
- grep treats a line longer than 1024 bytes as several lines (`Grep.WindowIsExact`, `Grep.LongLineIsMissed`), and prints
  a line up to its first NUL (`Grep.SearchLine`). Of the uninitialised buffer only its last byte matters, which must not
  be a newline; a pattern may be anything, and an empty one matches nothing but a NUL.
- A blinking light follows its cycle exactly for lengths from 1 to 32768, because the 16-bit countdown is compared as a
  signed number (`Blinking.BlinksInCycle`, `Blinking.BlinksThroughCalls`).
- Syncing draws the light unlit even when it is now lit, because the conditional move after `testb` never happens; the
  screen is right after a sync exactly when the light copied from is off or the two characters are the same
  (`Blinking.CallShows`, `Blinking.SyncMisdraws`).
- A light added at location 0 leaves its pool record looking free (`Blinker.Blinker.Add`, `Blinking.TwoAtZeroLoop`).
- `vidmap` maps video memory whether or not the caller is displayed, so it keeps the mapping right exactly when it is
  (`KernelTables.VidmapIsRightOnlyInFront`).
- Rubbing out a tab from columns 1 to 3 of the top row takes the cursor off the screen. In one write no tab can have ended
  there (`Screen.LeavesScreen`, `Screen.PutStaysOnScreen`); the keyboard's echo can
  get there, after Ctrl+L and a print (`Terminals.EchoAfterClearing`).
- The line saved by Enter is shared by all terminals: an Enter elsewhere replaces it, a read blanks the line in front, and
  a second read behind a full line writes past its buffer (`Typewriters.SecondEnterWins`,
  `Typewriters.BackgroundReadBlanksFront`, `Typewriters.SecondReadOverruns`). A reader gets the line last entered at its
  terminal exactly when the line last entered anywhere reads the same (`Typewriters.OwnLineIffLast`). If between each
  Enter and its read no key is struck that types or switches terminals, every read delivers the ideal line
  (`ReadRuns.LinesAreIdeal`). Runs stop at a call that would write out of bounds (`KernelRuns.WouldOverrun`).
- With Shift, 8 and the star of the keypad type the same byte; no other two keys ever do (`KeyMap.KeysStayApart`).
- A tab from column 76 leaves the cursor past the last column. Another tab from there is not undone by rubbing it out
  (`Screen.RubbingOutUndoesTab`), and a byte printed there shows on the row below, while the cursor stays on its row
  (`Screen.PrintingPastEdge`).
- The place in the directory is one for the whole machine, so a reader misses the names that others read, and starts over
  when another opens it (`ProgramRuns.DirectoryInTurn`).
- The four-byte buffer in which execute looks for the ELF magic is uninitialised, so a file shorter than four bytes whose
  bytes begin the magic may be accepted or not; the model allows both (`SystemCall.CheckMagic`).

`dafny verify dfyconfig.toml` checks the whole project.

## Model

| member | source | states |
|---|---|---|
| `ProcessStacks.StepOk` | student-distrib/system_call.c:284-534 | Every step of the machine (execute, halt, timer tick, display switch, a process's own call, a look at the clock's counter, clock interrupt) keeps the structure: three stacks with no pid twice, roots at the terminals' numbers, every waiting terminal parked, good descriptor tables, arguments that are strings |
| `ProcessStacks.ExecuteOk` | student-distrib/system_call.c:285-305 | execute, whether it finds a free pid or not, keeps that structure |
| `ProcessStacks.HaltOk` | student-distrib/system_call.c:495-519 | halt, whether it pops a process or restarts a root shell, keeps that structure |
| `ProcessStacks.TickOk` | student-distrib/scheduling.c:35-63 | a timer tick, booting or rotating, keeps that structure |
| `ProcessStacks.InterruptOk` | student-distrib/rtc.c:53-65 | a clock interrupt keeps that structure |
| `ProcessStacks.BootPid` | student-distrib/pcb.c:13-22 | while booting, the lowest free pid is the number of the terminal whose shell is next |
| `ProcessStacks.OwnIsPrivate` | student-distrib/system_call.c:76-163 | a call on descriptors or the clock changes the caller's record and no other process's |
| `ProcessStacks.FreePid` | student-distrib/pcb.c:13-22 | the lowest pid that no process on any stack has, or -1 when all six are live |
| `Runs.BootTakesSixTicks` | student-distrib/scheduling.c:39-57 | from power on, whatever clock interrupts and display switches come between, the three shells are up exactly when six timer ticks have come |
| `Runs.RunProgress` | student-distrib/scheduling.c:39-57 | after any legal run, boot progress is what it was plus the ticks, capped at six |
| `Runs.BootedShells` | student-distrib/scheduling.c:39-57 | the sixth tick leaves every terminal with one process, whose pid is the terminal's number, and the last terminal running |
| `Runs.RunningRotates` | student-distrib/scheduling.c:143-150 | after any run of a booted machine the running terminal is the old one plus the number of ticks, modulo three |
| `Runs.WaitingIsUndisturbed` | student-distrib/scheduling.c:92-131 | until its turn comes, a waiting terminal keeps its parked context and its stack, but for counted clock interrupts |
| `Runs.ThirdTickResumes` | student-distrib/scheduling.c:116-130 | once booted, whatever happens in between, the third tick after a preemption resumes the same stack of processes with the very context saved by the first |
| `Handovers.ParkedIsLastSaved` | student-distrib/scheduling.c:75-131 | a terminal that does not run is parked with the context saved by the last tick that preempted it, boot ticks included, and with the stack of processes it then had |
| `Handovers.NextTickLoadsLastSaved` | student-distrib/scheduling.c:75-131 | from power on and once the shells are up, the context the next tick loads is always one that an earlier tick saved, the last that preempted that terminal, with the same processes on its stack |
| `Handovers.StepParks` | student-distrib/scheduling.c:75-131 | a step after which a terminal does not run has parked it with the context it saved, or leaves its parked context and its stack alone |
| `Runs.StepLeavesOthersAlone` | student-distrib/scheduling.c:92-131 | one step touches no stack and no parked context of a terminal that neither runs nor is about to |
| `Runs.BaseIsKept` | student-distrib/system_call.c:495-519 | as long as a terminal stays deeper than d, the d lowest processes do not change, nor do the pid, return context and argument of the one above them |
| `Runs.HaltMatchesExecute` | student-distrib/system_call.c:311-316 | the halt that brings a terminal back to the depth from which a program was executed returns to the context that very execute saved, uncovers the caller's stack as it was, and frees the program's pid |
| `Handovers.StartedByLastExecute` | student-distrib/system_call.c:285-350 | every process above the bottom of a terminal has the pid, argument and return context of one execute of the run, the last at its place, and below it lies the stack that execute found |
| `Handovers.HaltReturnsToItsExecute` | student-distrib/system_call.c:495-534 | so every halt of such a process, in any run from power on, returns to the context its own execute saved, uncovers the caller's stack and frees the pid |
| `Runs.InterruptsAreConserved` | student-distrib/rtc.c:36-68 | over any run, the counter values cleared by a process's reads plus its counter now equal the counter before plus the interrupts |
| `Runs.StepConserves` | student-distrib/rtc.c:117-142 | one step neither loses nor invents a counted interrupt |
| `Runs.ReadsTakeTime` | student-distrib/rtc.c:134-142 | r reads completed at frequency f take at least r times 1024/f clock interrupts, however they are preempted between the check of the counter and its reset, as long as each reset follows a moment at which the counter had reached its target with no other call by the reader in between, or the reader has just had that moment when the run begins |
| `Handovers.StretchTakesTime` | student-distrib/rtc.c:134-142 | the same from any moment of such a run to any later one |
| `Handovers.PolledBehind` | student-distrib/rtc.c:134-139 | a reader that is past its loop in the middle of a run has its target reached there |
| `Runs.PolledWaits` | student-distrib/rtc.c:134-139 | if every reset follows such a moment, no read ever clears fewer interrupts than the rate asks for, whatever happens between the moment and the reset |
| `Runs.WaitingCounts` | student-distrib/rtc.c:134-139 | a process that has seen its counter reach its target still has at least the target counted when, after any activity elsewhere and further interrupts, it clears it |
| `KernelTables.MemoryIsDisjoint` | student-distrib/pcb.c:42-46 | different pids have disjoint 4MB frames and disjoint 8KB PCB and stack blocks, below the frames; each kernel stack starts in its own block |
| `KernelTables.MemoryIsPacked` | student-distrib/pcb.c:42-46 | frames lie one behind the other from 8MB up in order of pid, blocks from 8MB down, and each kernel stack starts in the last word of its block |
| `KernelTables.PagesAreDisjoint` | student-distrib/terminal.c:13-44 | video memory and the three terminals' buffers are different pages below 1MB |
| `KernelTables.EntriesHoldAddress` | student-distrib/paging.c:49-56 | on the aligned addresses the kernel maps, the flag bits are or'ed into zero bits, so an entry is the address and its flags |
| `KernelTables.UserFlags` | student-distrib/paging.c:100-104 | or'ing 7 into a machine word sets its low three bits and keeps the rest |
| `KernelTables.LargeFlag` | student-distrib/paging.c:49-56 | or'ing 0x87 sets bit 7 besides, unless it was set |
| `KernelTables.FlagBits` | student-distrib/paging.c:49-56 | the low three bits and bit 7 of a machine word are what the remainder by 8 and the digit at 128 are as numbers |
| `KernelTables.EntriesAreOrs` | student-distrib/paging.c:49-56 | for every address the two page entries are the address with the flags 7 and 0x87 or'ed into its binary digits |
| `KernelTables.ParentChain` | student-distrib/system_call.c:292-308 | from each terminal's current pid the parent links run through processes of that terminal to its root, whose pid is the terminal's number and its own parent, and meet it only at the end |
| `KernelTables.ChainsPartition` | student-distrib/system_call.c:292-308 | the three chains share no pid and visit none twice, and together hold exactly the pids marked in the process array |
| `KernelTables.ClimbFollowsStack` | student-distrib/pcb.c:70-79 | climbing n parent links from a stacked process leads to the process n places below it |
| `KernelTables.ChainIsStack` | student-distrib/pcb.c:70-79 | the n-th pid of a terminal's chain is the n-th process from the top of its stack and carries the terminal's number |
| `KernelTables.RunningIsMapped` | student-distrib/system_call.c:318-326 | the mapped frame is the running process's own, and the video page leads to video memory exactly when its terminal is displayed, else to that terminal's buffer |
| `KernelTables.VidmapIsRightOnlyInFront` | student-distrib/system_call.c:555-556 | mapping video memory for the caller keeps the tables right exactly when the caller's terminal is displayed |
| `KernelTables.FreePidIsFirstZero` | student-distrib/pcb.c:13-22 | the first zero of the process array is the lowest pid no stacked process has |
| `KernelTables.LaunchRepresents` | student-distrib/system_call.c:285-350 | the table updates of execute represent pushing the new process on the caller's stack |
| `KernelTables.BootRepresents` | student-distrib/system_call.c:301-305 | during boot the same updates represent starting the shell of the booting terminal |
| `KernelTables.PushRepresents` | student-distrib/system_call.c:285-350 | any tables that record a new process with the right parent, terminal, memory and globals represent the stack with it on top |
| `KernelTables.PopRepresents` | student-distrib/system_call.c:497-519 | freeing the running process and making its parent current represents popping the stack |
| `KernelTables.ParkRepresents` | student-distrib/scheduling.c:116-122 | saving a context in a terminal's current PCB represents parking that terminal |
| `KernelTables.ResumeRepresents` | student-distrib/scheduling.c:92-130 | loading the next terminal's current process represents resuming it, with the context it was parked with |
| `KernelTables.AdvanceRepresents` | student-distrib/scheduling.c:52-56 | moving the boot to the next terminal represents the same move on the stacks |
| `KernelTables.SetTopRepresents` | student-distrib/system_call.c:410-454 | rewriting the running process's PCB represents rewriting the top of the running stack |
| `KernelTables.OwnRepresents` | student-distrib/system_call.c:76-163 | a call that rewrites only the caller's descriptors and clock represents that on the stack |
| `KernelTables.InterruptRepresents` | student-distrib/rtc.c:53-65 | counting an interrupt in every live PCB with an open clock represents counting it in every stacked process |
| `KernelTables.DisplayRepresents` | student-distrib/terminal.c:83-90 | showing another terminal and remapping the running program's video page represents a display switch |
| `KernelTables.ShownIsOwn` | student-distrib/terminal.c:83-90 | the running pid is the shown terminal's current pid exactly when the shown terminal is the running one |
| `KernelTables.PowerOnRepresents` | student-distrib/pcb.c:34-59 | the initial tables represent three empty stacks |
| `KernelTables.FirstZero` | student-distrib/pcb.c:13-22 | the lowest index whose entry is zero, or -1 when none is |
| `Kernel.Kernel.constructor` | student-distrib/pcb.c:34-59 | the tables as initialised represent power on |
| `Kernel.Kernel.CreateProcess` | student-distrib/pcb.c:13-22 | the lowest free entry is marked and returned, or -1 and nothing changes |
| `Kernel.Kernel.BindNewPcb` | student-distrib/pcb.c:70-79 | pid and parent are recorded, pid 0 always as its own parent; nothing else changes |
| `Kernel.Kernel.ClosePcb` | student-distrib/pcb.c:91-110 | the pid is freed and its PCB's identity, clock and descriptors are cleared; no other PCB changes |
| `Kernel.Kernel.MapProcess` | student-distrib/paging.c:49-56 | directory entry 32 holds the physical address with the present, writable, user and 4MB bits or'ed in, whatever the address |
| `Kernel.Kernel.VidRemapping` | student-distrib/paging.c:100-104 | entry 0 of the video page table holds the physical address with the present, writable and user bits or'ed in, whatever the address |
| `Kernel.Kernel.SetUp` | student-distrib/system_call.c:318-350 | memory, video page and kernel stack are the process's own, its descriptors are the fresh table, its arguments the padded request; all other PCBs are untouched |
| `Kernel.Kernel.Launch` | student-distrib/system_call.c:284-350 | the whole table state after execute has accepted a program, or no change at all when no pid is free |
| `SystemCall.CheckMagic` | student-distrib/system_call.c:273-278 | a file that starts with the ELF magic is accepted, and only a file whose first bytes agree with it as far as they go |
| `SystemCall.CheckProgram` | student-distrib/system_call.c:264-278 | a program is accepted only if its name is listed, and by its magic |
| `SystemCall.IsElf` | student-distrib/lib.c:695-709 | comparing four bytes with the magic succeeds exactly for the magic |
| `SystemCall.Accept` | student-distrib/system_call.c:249-278 | parsing and checking accept every loadable command, nothing that may not load, and yield its argument bytes |
| `SystemCall.ProgramStrings` | student-distrib/system_call.c:248-262 | the stored name and argument, read back as strings, are the first word cut to 31 bytes and the second cut to 127 |
| `SystemCall.Execute` | student-distrib/system_call.c:246-376 | either the program goes on top of the caller's terminal on the lowest free pid, remembering the caller's context, or -1 comes back and no table has changed |
| `SystemCall.LaunchForCaller` | student-distrib/system_call.c:284-350 | execute's second half is the push of the abstract machine |
| `SystemCall.ArgumentArrives` | student-distrib/system_call.c:339-340 | right after a successful execute the new process's argument is the command's second word, up to 127 bytes of it, and empty exactly when there is none |
| `SystemCall.RestartShell` | student-distrib/system_call.c:386-460 | the whole table state after a shell has been restarted in the pid it had; without a loadable shell -1 and no change |
| `SystemCall.Halt` | student-distrib/system_call.c:495-534 | a process with a parent hands its exit code to the context its execute saved and its parent becomes current; a root shell starts afresh; the tables go on representing the machine |
| `SystemCall.UncoverRepresents` | student-distrib/system_call.c:509-519 | after the PCB is closed, making the parent current represents the pop |
| `SystemCall.UncoverParent` | student-distrib/system_call.c:509-519 | parent, terminal, memory map and kernel stack are those of the parent; nothing else changes |
| `SystemCall.RestartRepresents` | student-distrib/system_call.c:410-460 | restarting a root shell represents replacing the only process of its stack by a fresh one |
| `SystemCall.ReadyToHalt` | student-distrib/system_call.c:495-507 | the running PCB holds the context to return to, and is its own parent exactly when it is the only process of its terminal |
| `SystemCall.Vidmap` | student-distrib/system_call.c:543-560 | a pointer outside the program's 4MB is refused; otherwise the address 160MB is stored through it and video memory is mapped, which leaves the tables right exactly when the caller is in front |
| `Scheduling.ShellLoads` | student-distrib/system_call.c:261-278 | the command "shell" always loads when the image holds one, and with no arguments |
| `Scheduling.ExecuteShell` | student-distrib/scheduling.c:41-45 | the shell is launched for the booting terminal on the lowest free pid |
| `Scheduling.BootTick` | student-distrib/scheduling.c:39-57 | each of the three boot branches is the tick of the abstract machine |
| `Scheduling.FirstShell` | student-distrib/scheduling.c:41-45 | the first tick starts the first shell on terminal 0 |
| `Scheduling.NextShell` | student-distrib/scheduling.c:75-88 | a later boot tick parks the running shell in its own PCB and starts the next one |
| `Scheduling.Advance` | student-distrib/scheduling.c:52-56 | the tick after a shell has started moves on to the next terminal |
| `Scheduling.Reschedule` | student-distrib/scheduling.c:143-150 | the next terminal is the one after the active one, and the pid its current one |
| `Scheduling.ProcessSwitch` | student-distrib/scheduling.c:90-130 | all globals, mappings and the preempted PCB after a switch, and the context that is loaded |
| `Scheduling.SwitchRepresents` | student-distrib/scheduling.c:92-130 | a switch represents parking the running terminal and resuming the next with the context it was parked with |
| `Scheduling.SwitchTick` | student-distrib/scheduling.c:60-62 | a tick of the booted machine rotates to the next terminal and loads the context it was parked with |
| `Scheduling.PitHandler` | student-distrib/scheduling.c:35-63 | every timer interrupt is one tick of the abstract machine; once booted it loads exactly the parked context of the next terminal |
| `KernelRuns.RunCalls` | student-distrib/scheduling.c:35-63 | over any sequence of timer and clock interrupts, keystrokes and calls (execute, halt, open, close, read, print, clock write), programs calling only after boot, the tables represent a legal run of the machine with one step per call, each the call's own; what timers load, halts return to and reads deliver, of files, the directory, the clock and the keyboard, follows from the state each finds; consoles change only by prints of their own programs and by echoes in front; the run goes on until a call would write out of bounds |
| `KernelRuns.FromPowerOn` | student-distrib/scheduling.c:39-57 | starting from the initial tables, on a new kernel, the same holds, and the machine is booted after the sequence exactly when it holds six timer interrupts |
| `KernelCalls.Apply` | student-distrib/system_call.c:76-163 | each call or interrupt is one enabled step of the machine and one step of the devices: only the typewriter, the console that prints or echoes, and the place in the directory change, and what it gives, directory names included, follows from the state |
| `KernelRuns.TurnsPolled` | student-distrib/rtc.c:134-139 | in every such sequence a clock counter is reset only after its reader has seen it at its target, with no other call by that terminal since |
| `KernelRuns.ClockKeepsTime` | student-distrib/rtc.c:117-142 | so from any moment of a run of calls to any later one between which the clock stays open, r reads at frequency f take at least r times 1024/f clock interrupts, but for those already counted |
| `KernelRuns.TimerLoadsLastSaved` | student-distrib/scheduling.c:75-131 | in every run of calls from power on each timer interrupt of the booted machine loads the context that the last timer interrupt to preempt that terminal saved, be that during the boot, with the same processes on its stack |
| `KernelRuns.HaltReturnsToExecute` | student-distrib/system_call.c:495-534 | and each halt but a root shell's returns its exit code to the context that the execute which started its program saved, on the stack that execute found |
| `KernelRuns.WouldOverrun` | student-distrib/keyboard_handler.c:165-227 | a call writes out of bounds exactly when it reads a saved line of 128 bytes or rubs out a tab at columns 1 to 3 of the top row |
| `ReadRuns.ReadsAreConsecutive` | student-distrib/filesystem.c:64-70 | in every run of calls, whatever other programs and the reader itself do in between, what a process reads through a slot while it keeps that open on a file, from any moment to any later one, is a consecutive stretch of the file, and the position is just past it |
| `ReadRuns.NothingMeansAll` | student-distrib/filesystem.c:64-70 | and once a read that asked for something got nothing, all from its starting place to the end of the file has been delivered |
| `ReadRuns.StepReads` | student-distrib/system_call.c:44-89 | no call of anybody's moves an open slot but a read from it, which moves it by what it delivers |
| `ReadRuns.TypingIsActs` | student-distrib/terminal.c:121-149 | the lines being typed and the saved line depend on the keys and the completed reads of a run alone |
| `ReadRuns.LinesAreIdeal` | student-distrib/terminal.c:121-149 | in every run in which, between an Enter and its read, no key is struck that types or switches terminals, a read that gets a line gets the line an ideal editor has at the reader's terminal, cut to its size: no more bytes than asked for, and all of the line and its newline if there is room |
| `ProgramRuns.CallAt` | student-distrib/system_call.c:76-163 | call n of any run finds the machine and the devices as the calls before it left them, gives what that says, and leaves both as it should |
| `ProgramRuns.DirectoryInTurn` | student-distrib/filesystem.c:96-133 | in every run of calls a read of the directory gets the name of the entry whose number is how often anybody has read it since anybody last opened it, cut to the read's size, and nothing past the last |
| `ProgramRuns.SoleReaderGetsAll` | student-distrib/filesystem.c:96-133 | a process that, after the directory was opened, is alone in reading it, 32 bytes a time, gets every name once and in order however it is preempted, and then nothing |
| `ProgramRuns.CatPrintsInOrder` | syscalls/ece391cat.c:22-29 | cat among any other programs, preempted at any place: at every moment what it has printed and is about to print is the file from its beginning on |
| `ProgramRuns.CatPrintsFile` | syscalls/ece391cat.c:22-29 | and when a read gets nothing, it has printed exactly the file |
| `ProgramRuns.CatShows` | student-distrib/terminal.c:168-187 | at every moment the console of cat's terminal, displayed or not, is what writing all its output at once would have made it, if no key is struck while it is in front and no backspace follows a tab |
| `ProgramRuns.CatShowsLines` | student-distrib/terminal.c:168-187 | so when cat has read all of a file of printable lines shorter than a row, its console, blank below the cursor before, shows them one to a row, or the last ones if there are too many |
| `ProgramRuns.CatKeepsOpen` | student-distrib/system_call.c:76-163 | nothing that cat calls and nothing that others do closes its file or puts another program on its terminal |
| `KernelCalls.ApplyRead` | student-distrib/system_call.c:50-55 | a read of a file delivers its next bytes and moves its position by them; a read of the clock is one turn of its loop; any other read changes no table |
| `KernelCalls.ClockTurn` | student-distrib/rtc.c:134-139 | a look compares the reader's own counter with its target; past the loop the reset clears that counter and nothing else |
| `KernelRuns.ArgumentIsKept` | student-distrib/system_call.c:173-186 | after an execute, over any run in which the program does not end, the process started keeps the command's second word, up to 127 bytes, as its argument |
| `Descriptors.FirstFree` | student-distrib/system_call.c:128-133 | the lowest slot not in use, every slot before it being in use |
| `Descriptors.FindFree` | student-distrib/system_call.c:128-133 | the scan finds the lowest free slot from 2 on |
| `Descriptors.FreshTableOk` | student-distrib/system_call.c:331-344 | the table of a new process satisfies the descriptor-table invariant |
| `FileCalls.HasPrefix` | student-distrib/system_call.c:108-120 | the bounded comparison succeeds exactly for names that begin with the literal |
| `FileCalls.OpeningOk` | student-distrib/system_call.c:97-163 | open keeps the descriptor-table invariant |
| `FileCalls.OpenSucceeds` | student-distrib/system_call.c:97-163 | a name opens exactly when it begins with stdin or stdout, or is listed and one of slots 2 to 7 is closed |
| `FileCalls.ConsoleIsOpen` | student-distrib/system_call.c:108-120 | a name that begins with stdin or stdout gives the descriptor that is that one, and changes nothing |
| `FileCalls.Open` | student-distrib/system_call.c:97-163 | the lowest free slot takes the file, or -1 and nothing changes; the clock or the directory position is reset when that is what is opened; no other process changes |
| `FileCalls.OpenDriver` | student-distrib/system_call.c:138-157 | the driver, inode and side effect chosen for each file type |
| `FileCalls.Store` | student-distrib/rtc.c:77-106 | writing the caller's table and clock back represents its own step: opening sets the target to 512, closing clears target and counter |
| `FileCalls.ClosingOk` | student-distrib/system_call.c:76-89 | close keeps the invariant and succeeds exactly for an open slot from 2 to 7 |
| `FileCalls.CloseUndoesOpen` | student-distrib/system_call.c:76-163 | closing what was just opened gives back the very table there was |
| `FileCalls.Close` | student-distrib/system_call.c:76-89 | the slot is blanked and its clock closed, or -1 and nothing changes |
| `FileCalls.FileRead` | student-distrib/filesystem.c:64-70 | for any signed byte count and position, read as unsigned: the buffer gets what read_data delivers and the position moves by its result, wrapped to 32 bits |
| `FileCalls.ReadsItsFile` | student-distrib/filesystem.c:64-70 | for non-negative requests on a readable file the block reader delivers the flat slice |
| `FileCalls.PositionStays` | student-distrib/filesystem.c:64-70 | whatever the count, even a negative one, the position stays between 0 and the size of the largest file |
| `FileCalls.ReadDescriptor` | student-distrib/system_call.c:50-55 | reading an open file with any count delivers what read_data does and moves only that slot's position |
| `FileCalls.Read` | student-distrib/system_call.c:50-55 | the dispatch: a bad descriptor and standard output fail with nothing changed; files and the directory deliver what their drivers do; the clock and standard input are left waiting with nothing changed |
| `FileCalls.DirRead` | student-distrib/filesystem.c:115-137 | the next entry's name, padded or cut to the request, and its length; past the last entry 0 for ever, with nothing written |
| `FileCalls.GetArgs` | student-distrib/system_call.c:173-186 | fails exactly when there is no argument, else delivers it cut to the request and NUL-padded |
| `FileSystem.ReadDentryByName` | student-distrib/filesystem.c:183-206 | the lowest entry whose 32-byte name equals the given string, or failure when there is none or the string is longer than 32 |
| `FileSystem.FindEntry` | student-distrib/filesystem.c:195-204 | the first matching entry, none before it matching |
| `FileSystem.ReadDentryByIndex` | student-distrib/filesystem.c:218-229 | the entry at an index below the count, failure otherwise |
| `FileSystem.ListedNameIsFound` | student-distrib/filesystem.c:183-206 | a listed name, NUL-terminated, is found at the entry that listed it, names that fill all 32 bytes included |
| `FileSystem.NumberComesBack` | student-distrib/filesystem.h:14-34 | a number written in four bytes, low byte first, reads back as itself |
| `Volumes.CountsComeBack` | student-distrib/filesystem.h:22-28 | an image written from three counts, entries, inodes and data blocks gives back the counts |
| `Volumes.EntryComesBack` | student-distrib/filesystem.h:14-28 | and for each entry the name, type and inode written |
| `Volumes.InodeComesBack` | student-distrib/filesystem.h:31-34 | and for each inode the size and the block numbers written |
| `Volumes.ImageIsWellFormed` | student-distrib/filesystem.h:14-34 | it is an image the kernel can work with, every file of it readable |
| `Volumes.FileComesBack` | student-distrib/filesystem.c:265-283 | what the kernel takes for the content of an inode is the data blocks listed for it, as written, end to end and cut to its size |
| `Volumes.NameIsFound` | student-distrib/filesystem.c:183-206 | a name written, if no other entry has it, is found at its entry |
| `VolumeCalls.OpensAsWritten` | student-distrib/system_call.c:122-160 | opening a written name takes the lowest free slot and no other, at position 0; the type written decides between file, directory and clock, and a file's descriptor is on the content written |
| `VolumeCalls.FirstReadIsOfWritten` | student-distrib/system_call.c:44-57 | the first read of it then delivers the file's first bytes, the entry of the directory whose turn it is, or waits for the clock, by the type written |
| `VolumeCalls.FirstOpenIsTwo` | student-distrib/system_call.c:128-137 | a new process has its clock closed and all slots but the console's free, so its first open gives descriptor 2 |
| `VolumeCalls.LoadsAsWritten` | student-distrib/system_call.c:266-279 | a command whose first word, up to 31 bytes of it, is a written file's name is loadable exactly when the file begins with 7F and ELF |
| `VolumeCalls.BootsAsWritten` | student-distrib/system_call.c:392-405 | a written image holds what booting needs exactly when its file shell begins so |
| `VolumeCalls.ConstantsAreText` | student-distrib/system_call.c:108-120 | the names and the magic number compared with are stdin, stdout, shell, a period, and 7F and ELF |
| `VolumeCalls.CatsAsWritten` | syscalls/ece391cat.c:6-31 | cat, given the name of a written file, prints what was written and ends well |
| `VolumeCalls.ListsAsWritten` | syscalls/ece391ls.c:8-29 | ls prints the names written, in order, one to a line |
| `VolumeCalls.GrepsAsWritten` | syscalls/ece391grep.c:68-97 | grep, run on a written directory of files of lines no longer than 1024 bytes, prints for each file in turn its lines that hold the argument, under its name, and ends well |
| `FileSystem.EntryEnds` | student-distrib/filesystem.c:127-129 | measuring a 32-byte name always ends inside the entry, in the bytes of the file type |
| `FileSystem.ReadData` | student-distrib/filesystem.c:241-284 | the result and every byte of the destination, in terms of the inode's blocks laid end to end; bad block numbers fail |
| `FileSystem.CopyBlocks` | student-distrib/filesystem.c:271-283 | the block loop copies exactly the wanted stretch of the joined blocks and touches nothing else |
| `FileSystem.JoinedPart` | student-distrib/filesystem.c:274-280 | a stretch inside one block lies where the block number says in the image |
| `FileSystem.PartLength` | student-distrib/filesystem.c:274-279 | a copy never leaves its block or the request, and stops only at one of their ends |
| `FileSystem.ClippedIsRight` | student-distrib/filesystem.c:253-256 | the length cut with a 32-bit sum is the right one exactly when the end of the request does not wrap into the file |
| `FileSystem.ReadIsSlice` | student-distrib/filesystem.c:241-284 | result and bytes are those of the flat file slice, for every request, exactly when its 32-bit end does not wrap to a position inside the file |
| `FileSystem.MinusOneWraps` | student-distrib/filesystem.c:253-256 | a count of -1, read as unsigned, wraps from every place in a file but its beginning, and the length that results is -1 again |
| `SequentialReads.ChunksReassemble` | student-distrib/filesystem.c:64-70 | whatever the chunk sizes, successive reads laid end to end are the one slice of the total size, and the position is the bytes delivered, never past the end |
| `SequentialReads.ReadAll` | student-distrib/filesystem.c:64-70 | on the kernel, reads of any sizes through one descriptor deliver exactly those chunks, and leave the position past all the bytes delivered and everything else as it was |
| `SequentialReads.ReadOn` | student-distrib/filesystem.c:64-70 | on the kernel, one more read delivers the next bytes of the file and moves the position past them, and nothing else changes |
| `SequentialReads.OwnNothing` | student-distrib/system_call.c:50-89 | a process that puts its descriptor table back as it was has changed nothing |
| `Sources.ReadMore` | student-distrib/system_call.c:50-55 | one more read of an opened file delivers its next bytes; of a newly opened clock nothing, after the interrupts still missing |
| `Sources.CloseSource` | student-distrib/system_call.c:76-163 | closing a file that was opened and read, or a clock, restores the state from before but for the interrupts waited for |
| `Sources.InterruptsElsewhere` | student-distrib/rtc.c:53-65 | n interrupts do to all other processes the same whatever the running one's record is |
| `CStrings.StrLen` | student-distrib/lib.c:522-527 | the number of bytes before the first NUL |
| `CStrings.StrNCmp` | student-distrib/lib.c:695-709 | zero exactly when the two strings, cut to n bytes, are equal |
| `CStrings.StrNCpy` | student-distrib/lib.c:732-743 | the destination is the string cut to n bytes and filled with NULs, the bytes around it unchanged |
| `Command.ParseCommand` | student-distrib/system_call.c:197-233 | the buffers hold the first two words, cut to 31 and 127 bytes and NUL-padded |
| `Command.FindWord` | student-distrib/system_call.c:203-210 | the two loops stop at the ends of the first word from a place on |
| `Command.CopyWord` | student-distrib/system_call.c:212-216 | a word cut to leave room for its NUL fills the buffer from the start |
| `Command.WordsComeBack` | student-distrib/system_call.c:197-233 | a name and an argument written with any spaces around and between parse back to themselves |
| `Screen.LeavesScreen` | student-distrib/lib.c:214-286 | one output step takes the cursor off the screen exactly when it rubs out a tab at columns 1 to 3 of the top row |
| `Screen.TabRubbedOutTooEarly` | student-distrib/lib.c:244-250 | a screen on which that happens |
| `Screen.PutStaysOnScreen` | student-distrib/lib.c:214-286 | from a cursor that the previous byte can have left, every byte keeps the bounds |
| `Screen.WrittenOneMore` | student-distrib/terminal.c:168-176 | writing a byte more is one output step, given the byte before it |
| `Screen.WrittenInParts` | student-distrib/terminal.c:168-176 | it makes no difference how bytes are divided among writes, unless a write begins with a backspace after a tab |
| `Screen.Written` | student-distrib/terminal.c:168-187 | writing any bytes from any cursor on the screen stays on the screen |
| `Screen.PrintThenRubOut` | student-distrib/lib.c:214-286 | a printed character shows at the cursor, and rubbing it out puts the cursor back, blanks that cell and leaves every other |
| `Screen.NewlineMoves` | student-distrib/lib.c:216-223 | a newline or return puts the cursor into the first column of the next row and changes no cell; on the last row every row moves up and the last is blank |
| `Screen.TabMoves` | student-distrib/lib.c:252-267 | a tab moves four columns on, across the end of a row to the next, scrolling if need be, and draws nothing |
| `Screen.RubbingOutUndoesTab` | student-distrib/lib.c:242-251 | rubbing out a tab just printed brings the cursor back, exactly when it was not past the last column |
| `Screen.RubbingOutMoves` | student-distrib/lib.c:228-241 | rubbing out any other byte blanks the cell before the cursor, from the first column the last of the row above, and changes no other |
| `Screen.PrintingMoves` | student-distrib/lib.c:268-283 | a printable byte shows at the cursor and in no other cell, and the cursor goes on, from the last column to the next row, scrolling if need be |
| `Screen.PrintingPastEdge` | student-distrib/lib.c:268-283 | from past the last column a printable byte shows in the first column of the row below, or nowhere on the last row, and the cursor goes to the second column of the row it was on |
| `ScreenLines.LineIsShown` | student-distrib/terminal.c:168-176 | printable bytes that fit the row show from the cursor on, and nothing else changes |
| `ScreenLines.LinesAreShown` | student-distrib/terminal.c:168-176 | printable lines shorter than a row, written on a blank screen from its first column, show one to a row with blanks behind them, and when there are too many the last ones do |
| `Screens.Screens.constructor` | student-distrib/terminal.c:13-44 | three blank consoles, the first in front |
| `Screens.Screens.ScrollOneLine` | student-distrib/lib.c:375-403 | every row's characters move up by one, the last row is blanked, attributes stay |
| `Screens.Screens.SpecialPutc` | student-distrib/lib.c:214-286 | one output step on video memory and the global cursor |
| `Screens.Screens.TerminalSpecialPutc` | student-distrib/lib.c:294-369 | the same step on a terminal's own buffer and saved cursor; no other terminal changes |
| `Screens.Screens.TerminalWrite` | student-distrib/terminal.c:156-193 | the given terminal's console becomes the fold of the output step over the bytes, whether it is displayed or not; the other consoles do not change |
| `Screens.Screens.SwitchScreen` | student-distrib/terminal.c:64-82 | the new terminal is displayed and every console keeps its picture and cursor |
| `Screens.Screens.ClearScreen` | student-distrib/lib.c:38-48 | every cell of the screen in front is blank and the cursor in the corner |
| `ConsoleRuns.Replay` | student-distrib/terminal.c:51-96 | after any interleaving of writes and switches each terminal's console is what it would be had it been the only one |
| `ConsoleRuns.OnlyOwnPrintsCount` | student-distrib/terminal.c:156-193 | a console depends on its own terminal's writes and on nothing else, in particular not on when it was displayed |
| `LineEditing.OnlyEnterTypesNewline` | student-distrib/keyboard_handler.c:39-60 | in all four layouts Enter and no other key types a newline, and one key alone a backspace |
| `LineEditing.EchoKeepsCount` | student-distrib/keyboard_handler.c:165-227 | a byte is echoed exactly when one is typed into the line or overflows it, and one rubbed out exactly when one is taken back |
| `LineEditing.TypesWhatItShows` | student-distrib/keyboard_handler.c:165-227 | the byte a key adds to the line is the byte it echoes, and the byte backspace takes is the one it rubs out |
| `LineEditing.BackspaceUndoes` | student-distrib/keyboard_handler.c:168-184 | backspace takes the last byte and no other, whatever the modifiers, and so undoes any key that added one |
| `LineEditing.DeliversNoMore` | student-distrib/terminal.c:132-139 | a read gets the line and its newline, cut to the bytes asked for, no more and no less; asking for none gets all of it |
| `KeyMap.CapitalsOfLetters` | student-distrib/keyboard_handler.c:39-60 | on the letter keys Shift and Caps Lock each give the capital and both together the small letter; Caps Lock alone changes no other key |
| `KeyMap.KeyOfCharacter` | student-distrib/keyboard_handler.c:39-60 | in every layout the character a key types leads back to that key in a list of keys by character, but for 8 with Shift |
| `KeyMap.KeysStayApart` | student-distrib/keyboard_handler.c:39-60 | in every layout no two keys type the same byte, exactly but for 8 with Shift and the star of the keypad |
| `KeyMap.ClearsOnCtrlL` | student-distrib/keyboard_handler.c:197-202 | Ctrl with the L key, and nothing else, clears the screen |
| `KeyRuns.ModifiersHeld` | student-distrib/keyboard_handler.c:90-143 | after any keys and reads Shift, Ctrl and Alt count exactly if the last of their presses and releases was a press, and Caps Lock has changed as often as it was pressed |
| `KeyRuns.FrontIsBroughtLast` | student-distrib/keyboard_handler.c:100-117 | after any keys and reads the terminal in front is that of the last F1, F2 or F3 pressed with Alt held |
| `KeyRuns.KeyIsMirrored` | student-distrib/keyboard_handler.c:165-227 | each key typed in a row with room for it, letter, sign or backspace, keeps the line as it will be read and what the row shows the same |
| `KeyRuns.WhatShowsIsRead` | student-distrib/keyboard_handler.c:165-227 | so what any such keys type on an empty line is what shows from the cursor on, and what a read gets after Enter |
| `LineEditing.NextTidy` | student-distrib/keyboard_handler.c:165-227 | no keystroke but Enter puts a newline in a line or makes it longer than 127 |
| `LineEditing.LineWaits` | student-distrib/terminal.c:64-79 | while other terminals are in front, whatever is typed there, a terminal's line stays as it was |
| `Keyboard.Keyboard.BufferClear` | student-distrib/keyboard_handler.c:232-238 | the buffer is all NUL and the position 0 |
| `Keyboard.Keyboard.OutputKeyvalue` | student-distrib/keyboard_handler.c:165-227 | the line in front is edited as the ideal line editor edits it, whatever backspace left behind it, and the echo printed is exactly the one that belongs to the keystroke; Ctrl+L clears the screen and keeps the line |
| `Keyboard.Keyboard.Press` | student-distrib/keyboard_handler.c:83-152 | modifier flags, line and requested terminal after any scan code but Enter |
| `Keyboard.Keyboard.Enter` | student-distrib/keyboard_handler.c:144-151 | the finished line is saved, the reader in front is woken, and the buffer starts over holding the newline |
| `Keyboard.Keyboard.SwitchBuffers` | student-distrib/terminal.c:64-79 | every terminal keeps its line when another comes to the front |
| `Keyboard.Keyboard.TerminalRead` | student-distrib/terminal.c:121-149 | once Enter has been seen: the saved bytes up to their first newline or the one put behind them, cut to the request; flag and buffers are cleared |
| `Keyboard.Keyboard.ReadTurn` | student-distrib/terminal.c:121-149 | a read waits, with nothing changed, exactly as long as Enter has not been seen at its terminal |
| `Keyboard.Keyboard.CopyOut` | student-distrib/terminal.c:134-140 | the copy loop stops at the newline or the request, whichever comes first |
| `TypingRuns.Work` | student-distrib/keyboard_handler.c:83-227 | over any keystrokes at any terminals, each Enter being read before the next key, every read delivers the ideal line of its terminal, cut to its size |
| `TypingRuns.Strike` | student-distrib/keyboard_handler.c:83-152 | one keystroke changes the three lines, the front terminal and the flags as the ideal desk says |
| `TypingRuns.EnterAndRead` | student-distrib/terminal.c:121-149 | Enter and the read that waits for it deliver the line in front and leave it empty |
| `Terminals.TerminalSwitch` | student-distrib/terminal.c:51-96 | a number outside 0 to 2 is refused; otherwise the terminal is displayed, every console and every line is kept, the running program's video page follows, and nothing else in the process tables changes |
| `Terminals.SwitchDevices` | student-distrib/terminal.c:64-82 | swapping screens and keyboard buffers keeps every console and every line |
| `Terminals.Remap` | student-distrib/terminal.c:83-90 | the video page leads to video memory if the running pid is the shown terminal's, else to the running terminal's buffer |
| `Terminals.KeyboardHandler` | student-distrib/keyboard_handler.c:83-155 | the keyboard interrupt changes the lines, the saved line and the flags as one keystroke does, switches the terminal if asked, draws the echo on the console in front and nothing anywhere else, and keeps the tables right |
| `Typewriters.EnterStrikes` | student-distrib/keyboard_handler.c:144-152 | Enter leaves the line in front holding the newline alone, and all else on the desk as it was |
| `Terminals.WriteStdout` | student-distrib/terminal.c:156-193 | the running program's bytes go to the console of its own terminal and no other, whichever terminal is displayed |
| `Terminals.ReadStdin` | student-distrib/terminal.c:121-149 | the running program's read takes the saved line exactly when Enter has been pressed at its own terminal, and else waits with nothing changed |
| `Terminals.EchoLeavesScreen` | student-distrib/lib.c:214-286 | an echo takes the cursor off the screen exactly when it rubs out a tab at columns 1 to 3 of the top row |
| `Typewriters.OrderlyIsIdeal` | student-distrib/terminal.c:121-149 | if between an Enter and its read no key is struck that types or switches terminals, the shared buffers hold after any keys and reads what an ideal desk of three lines holds |
| `Typewriters.IdleTypesNothing` | student-distrib/keyboard_handler.c:165-227 | a key coming up, a modifier going down and every code past the function keys edit no line and switch no terminal |
| `Typewriters.OrderlyReadIsIdeal` | student-distrib/terminal.c:121-149 | and every read then delivers its terminal's ideal line, cut to its size |
| `Typewriters.SavedLineWaits` | student-distrib/terminal.c:121-149 | the line saved by Enter stays for its reader through any keys but another Enter |
| `Typewriters.SecondEnterWins` | student-distrib/keyboard_handler.c:144-151 | an Enter at a second terminal before the first one's line is read makes the first reader get the second's line |
| `Typewriters.EveryReaderGetsLastEntered` | student-distrib/keyboard_handler.c:144-151 | after any keys and reads whatever, every reader is handed the line that was in front at the last Enter, wherever that was |
| `Typewriters.OwnLineIffLast` | student-distrib/terminal.c:121-149 | a reader gets the line last entered at its own terminal, for reads of every size, exactly when the line last entered anywhere reads the same |
| `Typewriters.SecondReadOverruns` | student-distrib/terminal.c:127-133 | an unread line elsewhere, Enter on a full line and its read: the next read would put its newline past the saved buffer |
| `Terminals.EchoAfterClearing` | student-distrib/keyboard_handler.c:172-200 | a tab typed, Ctrl+L, one letter printed by a program and backspace: the echo takes the cursor off the screen |
| `Typewriters.BackgroundReadBlanksFront` | student-distrib/terminal.c:141-147 | a read at a terminal that is not in front blanks the line being typed in front |
| `Frequencies.RateCodes` | student-distrib/rtc.c:206-234 | a frequency has a rate code exactly when it is a power of two from 2 to 1024; the code names 32768 halved that often, and 1024 divides by the frequency without remainder |
| `Rtc.RtcHandler` | student-distrib/rtc.c:36-68 | an interrupt adds one to the counter of exactly the live processes whose clock is open |
| `Rtc.CountInterrupt` | student-distrib/rtc.c:52-65 | the loop's effect on every PCB |
| `Rtc.InterruptsCount` | student-distrib/rtc.c:53-65 | n interrupts raise an open clock's counter by n and leave a closed one alone |
| `Rtc.RtcRead` | student-distrib/rtc.c:117-142 | with only clock interrupts meanwhile, a read spins for exactly the interrupts still missing from its target and then clears the counter |
| `Rtc.WaitsJustLongEnough` | student-distrib/rtc.c:134-139 | that many interrupts, and no fewer, bring the counter to its target |
| `Rtc.RtcWrite` | student-distrib/rtc.c:153-176 | a four-byte write of a valid frequency sets the target to 1024 divided by it; every other write fails and changes nothing |
| `Rtc.TargetOfFrequency` | student-distrib/rtc.c:153-176 | a valid frequency written in four bytes, low byte first, asks for 1024 divided by it |
| `Rtc.OpensAtTwo` | student-distrib/rtc.c:77-89 | opening the clock sets the target of two reads a second |
| `Grep.WindowIsExact` | syscalls/ece391grep.c:20-60 | what the 1024-byte window prints is, for every pattern, what a search of the whole lines prints, exactly when no line is longer than 1024 bytes |
| `Grep.LongLineIsMissed` | syscalls/ece391grep.c:20-60 | a longer line that is not found by searching for it |
| `Grep.LinesComeBack` | syscalls/ece391grep.c:31-32 | splitting a text made of lines gives back those lines |
| `Grep.ShortLinesReportAlike` | syscalls/ece391grep.c:20-60 | a file whose lines fit the window is reported as by whole lines |
| `Grep.StrNCmp` | syscalls/ece391support.c:35-46 | zero exactly when the two strings, cut to n bytes, are equal |
| `Grep.ShiftDown` | syscalls/ece391support.c:14-17 | copying a later part of a buffer onto its start moves it intact, up to and including its NUL, when no NUL comes before the end; the rest of the buffer is untouched in any case |
| `Grep.FdPuts` | syscalls/ece391support.c:19-22 | what is written is the string up to its NUL |
| `Grep.SearchLine` | syscalls/ece391grep.c:41-51 | for a line of any bytes: it is printed once, up to its first NUL, with the file's name, exactly when the pattern occurs in it; an empty pattern occurs only at a NUL |
| `Grep.ShownWhole` | syscalls/ece391grep.c:41-51 | a line without NULs is printed whole, exactly when it matches |
| `Grep.MatchesIsHolds` | syscalls/ece391grep.c:42-50 | a line matches exactly when the pattern is not empty and the line is something, the pattern and something more |
| `Grep.ShownWhereverFound` | syscalls/ece391grep.c:42-50 | a line that holds the pattern anywhere is printed, whole and once, under the file's name |
| `Grep.ShownMeansFound` | syscalls/ece391grep.c:42-50 | a line of which anything is printed has the pattern as one of its stretches |
| `Grep.ReportIsOfHolders` | syscalls/ece391grep.c:42-50 | in the report of any lines the part of each, between those of the lines before and behind it, is the line under the file's name if it holds the pattern, else nothing |
| `Grep.FileReportsHolder` | syscalls/ece391grep.c:29-57 | searching a file of lines that fit the window prints a line that holds the pattern, between the reports of the others |
| `Grep.ReportMeansHolder` | syscalls/ece391grep.c:42-50 | lines of which anything is printed have one that holds the pattern |
| `Grep.FindLineEnd` | syscalls/ece391grep.c:30-32 | the first newline of the window, or the end of what was read |
| `Grep.SegmentIsPiece` | syscalls/ece391grep.c:33-52 | a properly ended segment is the next piece of the file |
| `Grep.WindowStep` | syscalls/ece391grep.c:33-52 | every segment the loop searches ends properly; a stale newline past a short read does no harm because the file has ended |
| `Grep.ScanWindow` | syscalls/ece391grep.c:28-57 | for any bytes the scan ends inside the buffer and keeps less than a window; for a file without NULs what is printed and what is still to be printed for the rest make up the report, with an unfinished line kept at the front |
| `Grep.KeepLine` | syscalls/ece391grep.c:33-38 | the unfinished line is moved to the front of the buffer intact |
| `GrepProgram.DoOneFile` | syscalls/ece391grep.c:10-66 | on any file or the clock: ends with status 0, in its buffer, and with the caller's descriptors as before; for a file without NULs it prints exactly the report of its pieces in order, for the clock nothing after one wait; or the message and -1 when it does not open |
| `GrepProgram.ScanFile` | syscalls/ece391grep.c:20-60 | the outer loop ends, having read the whole file and, if that holds no NUL, printed its whole report |
| `GrepProgram.NextWindow` | syscalls/ece391grep.c:22-57 | one read and scan keep the report complete and move on in the file |
| `GrepProgram.Grep` | syscalls/ece391grep.c:68-97 | over the whole directory: one part of output for each entry, in directory order, up to the first that is unnamed or does not open: nothing for names that begin with a period and for the clock, the file's own report for a file without NULs; only clock entries change the machine |
| `GrepProgram.GrepLoop` | syscalls/ece391grep.c:82-94 | the loop over the directory ends, with exactly one part for each entry before the stop |
| `GrepProgram.NextEntry` | syscalls/ece391grep.c:84-94 | one turn contributes one entry's part and moves to the next, or stops exactly where the directory says |
| `UserPrograms.Cat` | syscalls/ece391cat.c:6-31 | writes exactly the bytes of the named file and leaves it open at its end, nothing for the clock after one wait, or one of the two messages; nothing else changes |
| `UserPrograms.CatLoop` | syscalls/ece391cat.c:21-28 | the loop ends, having written the file's bytes in order and once each |
| `UserPrograms.ListsAll` | syscalls/ece391ls.c:18-26 | the listing holds every name of the directory exactly when none is empty |
| `UserPrograms.Ls` | syscalls/ece391ls.c:8-29 | each name up to the first empty one, in directory order, on its own line; or the message when the directory does not open |
| `UserPrograms.NextName` | syscalls/ece391ls.c:18-25 | one read yields the next entry's whole name, or nothing at the end |
| `Blinker.ChainIsUnique` | fish/blink.S:351-379 | the head and the links determine the list |
| `Blinker.Blinker.Malloc` | fish/fish.c:160-170 | the first record without a location, or NULL when all 2000 have one |
| `Blinker.Blinker.FindHelper` | fish/blink.S:351-379 | the first record on the list with that location, or NULL when none has it; the walk ends |
| `Blinker.Blinker.Add` | fish/blink.S:105-184 | succeeds exactly for a location below 2000 when fewer than 2000 lights are on the list, putting the light first, on, with its full on-time, and drawing its lit character in its cell and nothing elsewhere; fails without any change; a light at location 0 leaves no proper list |
| `Blinker.Blinker.Remove` | fish/blink.S:187-237 | takes out the light added last at that location and keeps all others in order, or fails without any change; the predecessor search ends |
| `Blinker.Blinker.FindPrevious` | fish/blink.S:207-212 | the record before a listed one, or none for the first |
| `Blinker.Blinker.Sync` | fish/blink.S:240-299 | the second light takes the first one's lengths, countdown and status and nothing else changes on the list; its cell is drawn with the unlit character, lit or not; or failure without any change |
| `Blinker.Blinker.Find` | fish/blink.S:302-348 | a copy of the newest light at the location, or failure |
| `Blinker.Blinker.Tasklet` | fish/blink.S:49-99 | every light on the list lives through exactly one tick, the list stays as it is, and exactly the lights that toggle are drawn, each as it now is |
| `Blinker.PoolIsFull` | fish/fish.c:160-170 | a record is free exactly when fewer than 2000 lights are on the list |
| `Blinker.AddKeepsList` | fish/blink.S:151-162 | linking a used-up free record in front keeps the list proper and adds that light |
| `Blinker.RemoveKeepsList` | fish/blink.S:214-222 | unlinking and blanking a record keeps the list proper and takes out that light |
| `Blinker.RemoveUndoesAdd` | fish/blink.S:187-237 | removing at the location of the light added last gives the list from before |
| `Blinker.AddAtZeroBreaksList` | fish/fish.c:163-166 | with a light at location 0 in front no chain is the list of used records |
| `Blinking.BlinksInCycle` | fish/blink.S:64-86 | ticked by itself a light is on at tick n exactly when n falls in the on part of its cycle, for all n, exactly when both lengths are from 1 to 32768 |
| `Blinking.CyclePhase` | fish/blink.S:64-86 | status and remaining count after any number of ticks |
| `Blinking.FirstLapse` | fish/blink.S:64-66 | a tick at which a light with a length out of that range is not as its cycle has it |
| `Blinking.SyncedBlinkTogether` | fish/blink.S:267-275 | two lights with the same lengths, countdown and status agree in them after every later tick |
| `Blinking.Replay` | fish/blink.S:105-299 | after any run of adds, removes, syncs and ticks the pool holds a proper list, and its lights and the screen are what the calls add up to |
| `Blinking.LightOverCalls` | fish/blink.S:49-299 | over any run of calls that leave its location alone, a listed light is the light ticked by itself as often as the run ticks |
| `Blinking.BlinksThroughCalls` | fish/blink.S:49-299 | an added light is on exactly when its cycle says so, through every run of calls that leaves its location alone, exactly when both lengths are from 1 to 32768 |
| `Blinking.SyncedThroughCalls` | fish/blink.S:267-275 | two synced lights on the list stay in step through every run of calls that leaves both locations alone |
| `Blinking.CallShows` | fish/blink.S:277-283 | if the screen shows every light as it is, it still does after a call, exactly unless the call syncs a light that looks different lit and unlit to a lit one |
| `Blinking.CallsShow` | fish/blink.S:49-299 | so through every run without such a sync, or a second light at one location, the screen shows all lights as they are |
| `Blinking.DrawnInItsPlace` | fish/blink.S:43-48 | a light drawn at location 80 * row + column changes the character shown there and nothing else on the page |
| `Blinking.BlinksOnScreen` | fish/blink.S:49-299 | from its adding on, through every such run that leaves its location alone, the character at a light's row and column is the lit one in the first part of each of its cycles, else the unlit one |
| `Blinking.SyncMisdraws` | fish/blink.S:277-283 | two lights on which a sync draws the wrong character |
| `Blinking.TwoAtZeroLoop` | fish/fish.c:163-166 | a light at location 0 leaves its record the first free one, so a second such light is given the same record, which then links to itself |
| `NumberFormat.DigitsStandForValue` | student-distrib/lib.c:484-490 | the numeral's positional value is the number, its digits belong to the radix, and it starts with 0 only for zero |
| `NumberFormat.DigitsAreCharacters` | student-distrib/lib.c:484-490 | the digits are 0 to 9 and A to Z in order |
| `NumberFormat.NumeralIsDigits` | student-distrib/lib.c:484-490 | no other numeral without a leading 0 has that value |
| `NumberFormat.DigitsOf32Bits` | student-distrib/lib.c:467-497 | a 32-bit number has at most 32 digits in any radix from 2 to 36, at most 8 in hexadecimal |
| `NumberFormat.Itoa` | student-distrib/lib.c:467-497 | the buffer holds the number's numeral and a NUL behind it, and nothing before it changes |
| `NumberFormat.StrRev` | syscalls/ece391support.c:84-103 | the string is reversed in place, the bytes around it unchanged |
| `NumberFormat.ReverseStretch` | student-distrib/lib.c:508-514 | the swapping loop reverses the stretch |
| `NumberFormat.LowFirstReversed` | syscalls/ece391support.c:69-80 | the digits as the loop produces them, reversed, are the numeral |
| `NumberFormat.FormatHex` | student-distrib/lib.c:101-119 | always eight hexadecimal digits, whose value is the argument |
| `NumberFormat.ZerosInFront` | student-distrib/lib.c:111-115 | leading zeros do not change a numeral's value |

## Left out

- Hardware: ports, interrupt controllers, the timer chip, segment and interrupt tables, the hardware cursor, boot and exception entry.
- The assembly that switches stacks and enters user mode; the contexts it saves and restores are opaque tokens.
- Copying a program's image into user memory and its entry point; only the check of its first four bytes is modelled.
- Null pointers passed by programs, other than execute's command, open's name, the buffer of a print and rtc_write's buffer.
- SystemCall.Halt: a root shell halts only on an image with a loadable shell; without one the code goes on with cleared tables.
- FileCalls.Close: descriptor 8 passes the range test and names memory past the table, so it is not accepted as argument.
- FileCalls.Read: the same for descriptor 8; the buffer has room for what the driver delivers, and a count for the
  directory is not negative.
- Writes to files and directories, which always fail, and the global `current_dentry`, which nothing reads.
- Rtc.RtcRead: only interrupts happen while it waits here; with arbitrary activity in between a read is the turns of
  `KernelCalls.ClockTurn`.
- Rtc.CountInterrupt: the counters do not wrap round at 32 bits.
- Terminals.TerminalSwitch: modelled from the first timer tick on, when a process is current; before it the code would
  follow the current pid into a process record without a terminal.
- Keyboard.Keyboard.TerminalRead: a saved line that fills its buffer of 128 bytes is excluded, since the newline put
  behind it lands outside; where that can happen is `KernelCalls.Overruns`.
- Terminals.KeyboardHandler: an echo that takes the cursor off the screen is excluded likewise, and so is a key before the
  first timer tick; the hardware cursor is not drawn.
- Screen.Written: kernel messages through putc and printf are not among the writes; they neither wrap lines nor stop at row 24.
- KernelRuns.RunCalls: clock writes and prints are not dispatched by descriptor.
- TypingRuns.Work: Enter and its read are one stroke there; `Typewriters.OrderlyIsIdeal` has them apart.
- GrepProgram.DoOneFile: what is printed for a file that holds a NUL is left open beyond `Grep.SearchLine`; names that
  begin with stdin or stdout, whose reads wait for typing or fail, and names of directories are not searched.
- GrepProgram.Grep: no listed name that does not begin with a period may be one of those; the program runs with only
  clock interrupts meanwhile, and another terminal's directory reads would move its place in the directory.
- UserPrograms.Cat: its argument is no such name either; it runs with only clock interrupts meanwhile, and its loop among
  other programs is `ProgramRuns.CatPrintsFile`.
- Blinking.CallsShow: two lights in one cell cannot both be shown, so no call may add a second light to a location.
- NumberFormat.FormatHex: of printf only the %#x conversion is modelled, as the string it produces.
- Directory entry 40, which always points at the video page table.
- Signals, which are stubs, the shell, pingpong, counter and hello programs, host emulation and the on-target tests.
