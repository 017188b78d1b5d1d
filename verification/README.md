# Verified models of the hard parts of a repository of exercises

The repository holds exercises for two books: a VM translator and an assembler for the Hack computer of *The Elements
of Computing Systems* (Nisan and Schocken, first edition), and the simulators and programs that go with *Operating
Systems: Three Easy Pieces*. This project models their hard parts in Dafny and proves what they are meant to do.

`dafny verify dfyconfig.toml` checks everything.

## The parts

**A compiler, end to end** (`Words`, `Asm`, `HackCpu`, `Assembler`, `Vm`, `Translator`, `Naming`, `Linking`,
`Execution`, `Layout`, `Simulation`, `Calls`, `Compiler`, `Protocol`, `Clashes`, `SmallPrograms`, `Ticking`,
`MaxProgram`). `Vm` is an abstract stack machine whose activations are a list of frames, each with arguments, locals,
an operand stack and two heap pointers; it knows no addresses. `Translator` emits assembly, `Assembler` turns it into
16-bit words, `HackCpu` fetches, decodes and executes them with an ALU given by its six control bits.
`Layout.Represents` says how a state of the abstract machine lies in the Hack computer's memory.
`Compiler.CompilerCorrect` joins all of it: from power-on with any memory, the words run as the abstract machine does,
for any number of steps. Its hypotheses are: the assembler accepts the program, there is a function `Sys.init`, and

- no instruction separates a label of the file from a later definition of the same name. This is exactly when all labels
  are where the translator meant them (`Linking.LabelsPlacedIff`); `Clashes.ReturnLabelClash` is a file that breaks this
  condition alone and runs wrong, `Clashes.HarmlessIsAcceptable` one that uses a name twice and runs right;
- no label takes the name of a register that the code uses, or of a static variable;
- there are no variables, or the final symbol table leaves all of them below the stack at 256, which
  `Assembler.VariablesBelow` shows to be exact.

A file meets the conditions on names if it is well named (`Linking.WellNamed`): it begins with a function; function
names are different, not predefined symbols and not those of static variables, and hold no dollar sign nor begin with
`_vm_`; labels of one function are different and not of the form `ret.k`. The comment at `hack.rs` line 88 says that
variables start at 16; the code starts them at the size of the symbol table plus 16, which is 39 and more.

**A file system** (`FileSystem`, `FileCounting`, `FileInvariant`, `FileTheorems`, `FileEffects`, `FileSystemObject`,
`PathNames`). `FileSystem` gives the disk and its operations as values and the invariant as a conjunction of small
predicates; the classes `Fs` and `BitmapObject` update their fields in place as the simulator does, with the
simulator's assertions as assertions, and are proved against those operations. `FileEffects` says what each request
does, in terms of paths and of what is read at their ends.

**Cached files under callbacks** (`Afs`, `AfsObject`): server, clients and their caches under every schedule.

**Disk arrays** (`RaidMaps`, `RaidWrites`, `RaidPlans`, `RaidRequests`): the block maps, and the small-write plans as
the sequence of operations issued, with parity over bytes. The program counts one parity read for a piece, however many
offsets it has; `RaidPlans` says when its choice of plan is the cheaper one.

**A multi-level feedback queue** (`Mlfq`, `MlfqTheorems`, `MlfqRuns`, `MlfqOrder`, `MlfqFair`, `MlfqObject`): the
scheduler's loop over queues, job records and events. The invariant speaks of the place of each job: in its queue,
waiting for an event, or done.

**A counter shared by threads** (`ApproxCounter`): a state machine whose steps are single loads, stores, locks and
unlocks of any number of threads.

**A block allocator** (`Ffs`, `FfsPlaces`, `FfsTables`, `FfsDelete`, `FfsEffects`, `FfsObject`), **job scheduling**
(`Slices`, `Scheduling`) and **a process tree** (`ForkTree`, `TreeEffects`, `ForkObject`).

`Options`, `Arithmetic`, `Sequences` and `Directories` are shared helpers.

## Model

| member | source | states |
|---|---|---|
| Assembler.Assemble | nand2tetris/rust/src/hack.rs:27-108 | the three passes over the symbol map and the instruction list: the encoding of every instruction under the final table, and an answer exactly when there is such an encoding |
| Assembler.DefineLabels | nand2tetris/rust/src/hack.rs:55-82 | first pass: the instructions without the labels, and the table that gives each label the number of instructions before its last definition; refused exactly when such a number does not fit in 16 bits |
| Assembler.DefineVariables | nand2tetris/rust/src/hack.rs:84-98 | second pass: the table of the specification, refused exactly when an address computed for some symbol would not fit in 16 bits |
| Assembler.EncodeAll | nand2tetris/rust/src/hack.rs:100-107 | third pass: every instruction encoded, or refused exactly when one cannot be |
| Assembler.NumberToBinary | nand2tetris/rust/src/hack.rs:171-184 | the 15 digits of a number, which read back give the number; refused exactly for numbers from 2^15 on, where the source panics |
| Assembler.EncodeInstruction | nand2tetris/rust/src/hack.rs:138-169 | one instruction to a word, by the value of its symbol or by the three tables |
| Assembler.AluComputes | nand2tetris/rust/src/hack.rs:199-230 | for all 28 expressions and all 16-bit operands, the ALU of section 2.2 of The Elements of Computing Systems, given the six control bits that the table lists, computes the expression |
| Assembler.JumpBitsCorrect | nand2tetris/rust/src/hack.rs:232-243 | the three jump bits make the machine jump exactly when the jump condition holds of the ALU output |
| Assembler.DestBitsCorrect | nand2tetris/rust/src/hack.rs:186-197 | the three destination bits select exactly the registers that the destination names |
| Assembler.EncodeCorrect | nand2tetris/rust/src/hack.rs:138-169 | executing the encoded word is executing the instruction, in every machine state |
| Assembler.LabelResolves | nand2tetris/rust/src/hack.rs:55-68 | a label not defined again resolves to the index of the next real instruction |
| Assembler.LabelResolvesIff | nand2tetris/rust/src/hack.rs:58-68 | duplicate labels are not rejected: a definition resolves to its own place exactly when no instruction lies between it and the last definition of that name |
| Assembler.LabelsResolvedIff | nand2tetris/rust/src/hack.rs:55-82 | for every program and every range of its lines: all labels defined there resolve to their own places if and only if no instruction lies between one of them and a later definition of the same name |
| Assembler.LabelTableKeys | nand2tetris/rust/src/hack.rs:28-52 | the label table holds exactly the predefined symbols and the labels, and a predefined symbol keeps its address unless a label takes its name |
| Assembler.VariablesDistinct | nand2tetris/rust/src/hack.rs:84-98 | labels keep their values, exactly the mentioned symbols are added, different variables get different addresses, all from the size of the label table plus 16 on |
| Assembler.VariablesBelow | nand2tetris/rust/src/hack.rs:88-94 | all variables lie below a bound exactly when there are none or the final table leaves room; they start behind the whole symbol table and not at 16 as the comment in the source has it |
| Assembler.AcceptedIff | nand2tetris/rust/src/hack.rs:27-108 | which programs are accepted: labels and variables fit in 16 bits and every number or address loaded is below 2^15; a mentioned symbol is never missing |
| Assembler.AssembledRuns | nand2tetris/rust/src/hack.rs:27-108 | from every state and for every number of steps, fetching, decoding and executing the emitted words gives the run of the symbolic program |
| Assembler.PredefinedLoaded | nand2tetris/rust/src/hack.rs:28-52 | the address that each predefined symbol stands for on the Hack platform, the screen and the keyboard included: its load instruction puts that address in A, unless a label takes the name |
| MaxProgram.MaxAssembles | nand2tetris/projects/05/Max.hack:1-16 | Max.asm (projects/06/max) is accepted, and its words are the 16 lines of Max.hack |
| Vm.ComparisonExact | nand2tetris/rust/src/vm.rs:700-728 | eq is exact; gt and lt, which test the sign of the wrapped difference, give the signed order exactly when the subtraction does not overflow |
| Vm.ArithmeticExact | nand2tetris/rust/src/vm.rs:356-366 | add, sub and neg give the signed result exactly when it fits in 16 bits, sub taking the top from the word below it; not is -x - 1 |
| Vm.BitwiseExact | nand2tetris/rust/src/vm.rs:364-365 | and and or work bit by bit |
| Translator.TranslationState.CommandToAsm | nand2tetris/rust/src/vm.rs:346-545 | one command: the emitted code, the new counter and the new function name are those of the specification; refused exactly where a 16-bit addition of the translator overflows |
| Translator.TranslationState.ComparisonToAsm | nand2tetris/rust/src/vm.rs:697-728 | the comparison code with the three labels of the present counter, which then grows by one |
| Translator.TranslationState.FunctionToAsm | nand2tetris/rust/src/vm.rs:384-415 | the function label and one push of zero for each local, emitted in a loop; the current function changes |
| Translator.TranslationState.CallToAsm | nand2tetris/rust/src/vm.rs:416-482 | the calling sequence with the return label of the present function and counter, which then grows by one |
| Translator.VmToAsm | nand2tetris/rust/src/vm.rs:321-344 | the whole file, with function name and counter carried through the loop: the concatenation of the blocks of the specification |
| Naming.NamesDistinct | nand2tetris/rust/src/vm.rs:368-420 | labels that have the same name have the same origin: comparison and return labels always, labels and functions of the file if its names are plain; decimal printing is injective |
| Naming.ReturnLabelsDistinct | nand2tetris/rust/src/vm.rs:416-482 | a return label tells its function and its number, whatever characters the function's name has |
| Linking.GeneratedLabelsDistinct | nand2tetris/rust/src/vm.rs:290-344 | all comparison and return labels made in one translation of any file whatever differ from each other, line by line of the emitted code |
| Naming.PredefinedUnclaimed | nand2tetris/rust/src/hack.rs:28-52 | no label but perhaps a function's own name is a predefined symbol |
| Naming.StaticUnclaimed | nand2tetris/rust/src/vm.rs:584-595 | no static variable has the name of a label, unless a function has just that name |
| Naming.StaticNamesDistinct | nand2tetris/rust/src/vm.rs:595 | different static variables of a file have different symbols |
| Linking.LinkSplit | nand2tetris/rust/src/bin/vm-compiler.rs:18-50 | the linked program is everything before a block, the block and everything after it |
| Linking.BlockLabelResolves | nand2tetris/rust/src/hack.rs:55-68 | in the linked program every label of a block resolves to the number of instructions before it |
| Linking.LabelsPlacedIff | nand2tetris/rust/src/bin/vm-compiler.rs:18-50 | which files have every label of every command where the translator meant it: exactly those in which no instruction separates a label of the file from a later definition of its name |
| Linking.RegistersPlacedIff | nand2tetris/rust/src/hack.rs:28-52 | the symbols SP, LCL, ARG, THIS, THAT, R13 and R14 keep their addresses exactly when no label takes their names |
| Linking.LinkedIff | nand2tetris/rust/src/bin/vm-compiler.rs:18-50 | a file that assembles is linked as the code expects exactly when labels and registers are as above and the static variables have places of their own below the stack |
| Linking.AssembledIsLinked | nand2tetris/rust/src/bin/vm-compiler.rs:18-50 | so it is when no label takes the name of a static variable and there are no variables or the final table leaves room for them below the stack |
| Linking.WellNamedApart | nand2tetris/rust/src/misc.rs:15-38 | the naming discipline, which the parser does not check, keeps all names apart |
| Execution.FetchOffsetEffect | nand2tetris/rust/src/vm.rs:614-629 | the segment code leaves base + offset in A and memory alone, for offset 0 as for others |
| Execution.RepositionEffect | nand2tetris/rust/src/vm.rs:458-470 | ARG becomes SP - 5 - nargs and LCL becomes SP |
| Simulation.FetchEffect | nand2tetris/rust/src/vm.rs:575-612 | the fetching code leaves the address of segment[index] in A, for all seven segments with an address |
| Simulation.SimPush | nand2tetris/rust/src/vm.rs:547-573 | running the code of a push simulates the push, constants included |
| Simulation.SimPop | nand2tetris/rust/src/vm.rs:631-656 | running the code of a pop simulates the pop, with only R13 as scratch |
| Simulation.SimUnary | nand2tetris/rust/src/vm.rs:658-668 | neg and not are simulated |
| Simulation.SimArithmetic | nand2tetris/rust/src/vm.rs:670-695 | add, sub, and, or are simulated, with 16-bit wrap-around |
| Simulation.SimComparison | nand2tetris/rust/src/vm.rs:697-728 | eq, gt and lt are simulated, through the jumps of either outcome |
| Simulation.SimLabel | nand2tetris/rust/src/vm.rs:368 | a label emits no instruction and is passed |
| Simulation.SimGoto | nand2tetris/rust/src/vm.rs:369-372 | a goto reaches the command after its label |
| Simulation.SimIfGoto | nand2tetris/rust/src/vm.rs:373-382 | if-goto pops one word and jumps exactly when it is not zero |
| Calls.SimFunction | nand2tetris/rust/src/vm.rs:384-415 | entering a function pushes as many zeros as it has locals |
| Calls.SimCall | nand2tetris/rust/src/vm.rs:416-482 | a call saves return address and four registers and starts the callee above them, for any number of arguments |
| Calls.SimReturn | nand2tetris/rust/src/vm.rs:483-543 | a return puts the result where the first argument was, restores the four registers and goes to the return point; with no arguments the result overwrites the saved return address, which was read before |
| Compiler.SimStep | nand2tetris/rust/src/vm.rs:346-545 | forward simulation: from related states, a step of the abstract machine is matched by a number of instructions that reach a related state |
| Compiler.SimRun | nand2tetris/rust/src/vm.rs:346-545 | the same for runs of any length |
| Compiler.BootstrapRuns | nand2tetris/rust/src/vm.rs:290-319 | from any memory the bootstrap code reaches the entry of Sys.init with SP and LCL 261 and ARG 256, and no memory from address 3 on changes but the five saved words |
| Compiler.Build | nand2tetris/rust/src/bin/vm-compiler.rs:8-51 | translator and assembler one after the other produce the words of the specification; refused exactly where one of them refuses |
| Compiler.CompilerCorrect | nand2tetris/rust/src/bin/vm-compiler.rs:8-51 | end to end: from power-on with any memory, whenever the abstract machine makes k steps, the Hack computer running the assembled words reaches a state that represents the result: stack, segments, pointers and control point agree, and only the registers, R13 and R14 are scratch |
| Protocol.CallReturns | nand2tetris/rust/src/vm.rs:416-543 | for a call and its matching return at any depth: the abstract machine continues behind the call with the arguments replaced by one result and everything below untouched |
| Protocol.RegistersRestored | nand2tetris/rust/src/vm.rs:416-543 | the same on the Hack machine: LCL, ARG, THIS and THAT are the caller's, SP is the old SP - nargs + 1, the result is on top, memory below the arguments is unchanged and control is at the return label |
| Clashes.ReturnLabelClash | nand2tetris/rust/src/vm.rs:368-420 | why labels must be together: a file in which only that fails is assembled, and its words do not run as the abstract machine does: that machine pushes a word and comes to a call, the Hack computer, from any memory and after any number of steps, never comes to the code of the call |
| Clashes.ClashAssembles | nand2tetris/rust/src/hack.rs:27-108 | that file is accepted by translator and assembler |
| Clashes.HarmlessIsAcceptable | nand2tetris/rust/src/vm.rs:368-420 | a file with the same two definitions and no instruction between them violates the naming discipline and is within the main theorem |
| Clashes.FilesClash | nand2tetris/rust/src/bin/vm-compiler.rs:22-45 | two files one after the other: whenever a comparison of the one has the number of a comparison of the other, the labels of the first file are not all where they should be |
| SmallPrograms.ShortProgramsFit | nand2tetris/rust/src/hack.rs:88-94 | every program of at most 217 lines keeps its variables below the stack |
| SmallPrograms.SmallFilesAssemble | nand2tetris/rust/src/bin/vm-compiler.rs:8-51 | every file that translates to at most 217 lines and has no constants near the limit is assembled |
| Ticking.TickingForEver | nand2tetris/rust/src/bin/vm-compiler.rs:8-51 | the hypotheses of CompilerCorrect are met by a file with calls, returns and a static variable; it is assembled, and its run on the abstract machine goes on for every number of steps |
| FileSystemObject.BitmapObject.Alloc | ostep/homework/file-implementation/vsfs.py:33-39 | the first free index is marked and counted, or -1 when there is none |
| FileSystemObject.BitmapObject.Free | ostep/homework/file-implementation/vsfs.py:41-44 | the bit is cleared and the count goes down; the bit must be set |
| FileSystemObject.BitmapObject.MarkAllocated | ostep/homework/file-implementation/vsfs.py:46-49 | the bit is set and the count goes up; the bit must be clear |
| FileSystemObject.DelDirEntry | ostep/homework/file-implementation/vsfs.py:114-123 | removes the entry of the name; its final assertion cannot be reached |
| FileSystemObject.Fs.constructor | ostep/homework/file-implementation/vsfs.py:185-213 | the formatted disk, consistent |
| FileSystemObject.Fs.CreateFile | ostep/homework/file-implementation/vsfs.py:326-374 | updates bitmaps, inodes and blocks in place as the specification says, all assertions of the called methods holding |
| FileSystemObject.Fs.CreateLink | ostep/homework/file-implementation/vsfs.py:298-324 | as the specification says, whose effect is that of FileEffects.LinkEffect: one more entry for the inode of the target and one more reference, or nothing |
| FileSystemObject.Fs.DeleteFile | ostep/homework/file-implementation/vsfs.py:265-296 | consistent afterwards, and the state of the specification: the entry goes, and inode and block go with the last reference |
| FileSystemObject.Fs.DoCreate | ostep/homework/file-implementation/vsfs.py:425-458 | consistent afterwards; path table and answer as specified |
| FileSystemObject.Fs.DoLink | ostep/homework/file-implementation/vsfs.py:403-424 | consistent afterwards; path table and answer as specified, with the effect of FileEffects.LinkEffect |
| FileSystemObject.Fs.WriteFile | ostep/homework/file-implementation/vsfs.py:376-393 | consistent afterwards; the file gets its one block, or nothing changes |
| FileTheorems.FormatInv | ostep/homework/file-implementation/vsfs.py:185-213 | a fresh disk is consistent |
| FileTheorems.ApplyKeepsInv | ostep/homework/file-implementation/vsfs.py:265-458 | every create, mkdir, link, unlink and write keeps the disk consistent: bitmaps, inodes, blocks, directories, reference counts and path table |
| FileTheorems.FailureChangesNothing | ostep/homework/file-implementation/vsfs.py:298-341 | a create, link or write that fails leaves the disk as it was |
| FileTheorems.CreateSucceedsIff | ostep/homework/file-implementation/vsfs.py:326-357 | a create succeeds exactly when the directory has room, the name is free, and there is an inode and, for a directory, a block |
| FileTheorems.WalkIffListed | ostep/homework/file-implementation/vsfs.py:209-213 | walking the components of a path from the root finds an inode exactly when the path is in the table, and then the inode that the table gives |
| FileTheorems.NoLostInodes | ostep/homework/file-implementation/vsfs.py:265-374 | every live inode has a path in the table |
| FileTheorems.FileSystemConsistent | ostep/homework/file-implementation/vsfs.py:184-458 | after any run: table and tree agree in both directions, names in a directory are unique, .. names the parent, reference counts are the numbers of entries, dots included, bitmaps match types and counts, and each used block belongs to exactly one inode of its type |
| FileEffects.LinkEffect | ostep/homework/file-implementation/vsfs.py:298-424 | a link succeeds exactly when the directory has room and the path is new; then the new path names the inode of the target, which has one reference more, and all other paths and inodes and all contents are unchanged; a failed link changes nothing |
| FileEffects.CreateFileEffect | ostep/homework/file-implementation/vsfs.py:326-458 | a created file has the first free inode, no block and one reference under the new path; nothing else changes |
| FileEffects.CreateDirectoryEffect | ostep/homework/file-implementation/vsfs.py:326-458 | a new directory has the first free inode and a block with . and .. alone, its parent one reference more; nothing else changes |
| FileEffects.UnlinkEffect | ostep/homework/file-implementation/vsfs.py:265-296 | exactly the path goes; its inode loses a reference, and with the last one inode and block become free; no other path, inode or contents change |
| FileEffects.WriteEffect | ostep/homework/file-implementation/vsfs.py:376-393 | a write succeeds exactly when the file has no block and one is free; then the file holds what was written, and nothing else changes |
| FileEffects.WrittenOnce | ostep/homework/file-implementation/vsfs.py:298-393 | what is written under one name of a file is read, walking from the root, under every other |
| FileEffects.OutlivesName | ostep/homework/file-implementation/vsfs.py:265-296 | removing one name of a file leaves what is read under another |
| FileEffects.HardLink | ostep/homework/file-implementation/vsfs.py:265-424 | so a link is a second name: written through the link, read through the target, and still there when the target is unlinked |
| PathNames.GetParent | ostep/homework/file-implementation/vsfs.py:256-263 | splitting a full name at its slashes and joining all but the last piece gives the full name of the parent, and the last piece is the entry's name |
| PathNames.NamesTellPathsApart | ostep/homework/file-implementation/vsfs.py:409-413 | full names, built as the source builds them, are equal only for equal paths, so that components may stand for names |
| AfsObject.AfsSystem.Get | ostep/homework/dist-afs/afs.py:109-117 | the file is on the client's callback list and its contents are returned |
| AfsObject.AfsSystem.Put | ostep/homework/dist-afs/afs.py:119-133 | the contents are stored and, in a loop over the clients, every other client with a callback loses the validity of its copy |
| AfsObject.AfsSystem.OpenFile | ostep/homework/dist-afs/afs.py:401-410 | a valid copy is used, else one is fetched with reference count 0; then the count goes up |
| AfsObject.AfsSystem.WriteFile | ostep/homework/dist-afs/afs.py:460-467 | the copy gets a fresh value and is dirty |
| AfsObject.AfsSystem.PutFile | ostep/homework/dist-afs/afs.py:412-416 | a dirty copy is stored and then clean and valid |
| AfsObject.AfsSystem.CloseFile | ostep/homework/dist-afs/afs.py:472-481 | stores if dirty, drops the reference, and discards an invalid unreferenced copy |
| AfsObject.AfsSystem.Step | ostep/homework/dist-afs/afs.py:422-481 | one action of one client is the step of the specification, and coherence is kept |
| Afs.StepCoherent | ostep/homework/dist-afs/afs.py:109-133 | after every step each cached copy is on the server's callback list for that client, and a valid clean copy equals the server's contents |
| Afs.RunCoherent | ostep/homework/dist-afs/afs.py:401-481 | the same after every schedule, nested opens included |
| Afs.StepFresh | ostep/homework/dist-afs/afs.py:55-67 | every write writes a value not used before, so that after every step what a client has changed and not stored is nowhere else: in no file of the server and in no other copy |
| Afs.OpenShowsServerIff | ostep/homework/dist-afs/afs.py:401-410 | right after an open the client sees the server's contents if and only if it did not hit its own valid dirty copy |
| Afs.RunShowsServerIff | ostep/homework/dist-afs/afs.py:401-481 | so it is at any moment of any run from the start of the program, nested opens included, and an open of a file that the server has never fails |
| Afs.RefcountsKeptIff | ostep/homework/dist-afs/afs.py:407-409 | reference counts stay the numbers of opens exactly as long as nobody opens a file that he has open and whose copy was invalidated |
| Afs.CloseToOpen | ostep/homework/dist-afs/afs.py:401-481 | in every interleaving in which no client opens a file it has open: no assertion fails and each open shows the server's contents |
| Afs.StartDisciplined | ostep/homework/dist-afs/afs.py:76-87 | the start of the program, with nothing open, is a state to begin from |
| Afs.OpenEffect | ostep/homework/dist-afs/afs.py:401-410 | an open of a valid copy only counts one more; any other open fetches the server's contents, with a callback; no other copy or file changes |
| Afs.WriteEffect | ostep/homework/dist-afs/afs.py:460-466 | a write changes the client's own copy and nothing else |
| Afs.CloseEffect | ostep/homework/dist-afs/afs.py:471-479 | a close of a changed copy stores exactly it at the server and invalidates exactly the others' copies under a callback; an invalid copy goes with its last reference |
| Afs.ProperStep | ostep/homework/dist-afs/afs.py:401-481 | under that discipline the count is 1 exactly while open, and dirty implies open |
| Afs.NestedOpenResets | ostep/homework/dist-afs/afs.py:407-409 | a concrete family of schedules in which a second open of an invalidated file makes two opens count as one |
| RaidMaps.BlockMap0Injective | ostep/homework/file-raid/raid.py:194-197 | RAID 0: different blocks have different locations |
| RaidMaps.BlockMap1Injective | ostep/homework/file-raid/raid.py:213-217 | RAID 1: the two copies of a block lie on different disks of the array, and different blocks share no location |
| RaidMaps.StripingNext | ostep/homework/file-raid/raid.py:194-197 | RAID 0: the first chunk is on the first disk, each next one on the next disk, and behind the last disk one row further |
| RaidMaps.MirrorsTogether | ostep/homework/file-raid/raid.py:213-217 | RAID 1: the two copies are on a pair of neighbours, striped over the pairs |
| RaidMaps.BlockMapInjective | ostep/homework/file-raid/raid.py:243-278 | RAID 4 and 5, both layouts: different blocks have different locations, none of them on the parity disk of its stripe |
| RaidMaps.ParityMapIs | ostep/homework/file-raid/raid.py:281-283 | the parity disk computed from the first block of a stripe is that of every block of the stripe |
| RaidMaps.DataNotOnParity | ostep/homework/file-raid/raid.py:272 | the assertion that data and parity disk differ never fails |
| RaidMaps.EachDiskOnce | ostep/homework/file-raid/raid.py:254-273 | at one stripe offset data and parity use each disk exactly once |
| RaidMaps.ParityRotates | ostep/homework/file-raid/raid.py:260-261 | RAID 5: within numDisks consecutive stripes each disk holds the parity of exactly one |
| RaidMaps.ParityStepsLeft | ostep/homework/file-raid/raid.py:248-261 | the parity starts on the last disk and steps one disk to the left from stripe to stripe on RAID 5, and stays there on RAID 4 |
| RaidMaps.ChunksInOrder | ostep/homework/file-raid/raid.py:243-266 | RAID 4 and the left-asymmetric layout: a stripe's chunks are in the order of the disks |
| RaidMaps.ChunksRotate | ostep/homework/file-raid/raid.py:254-269 | left-symmetric layout: consecutive chunks lie on consecutive disks, across stripes |
| RaidMaps.StripeBounds | ostep/homework/file-raid/raid.py:254-259 | a block is in the stripe whose range of numbers holds it |
| RaidWrites.IssueSubtractive | ostep/homework/file-raid/raid.py:289-299 | reads the blocks to be overwritten, then the old parity of their offsets, each offset once |
| RaidWrites.IssueAdditive | ostep/homework/file-raid/raid.py:300-310 | reads the blocks of the stripe before and after the piece |
| RaidWrites.IssueWrites | ostep/homework/file-raid/raid.py:312-320 | writes the blocks, then the parity of their offsets, each offset once |
| RaidWrites.PartialWrite | ostep/homework/file-raid/raid.py:286-320 | the operations of a piece of a stripe, in the order issued |
| RaidWrites.WritesDistinct | ostep/homework/file-raid/raid.py:312-320 | a piece writes every location at most once |
| RaidWrites.ParityFromReads | ostep/homework/file-raid/raid.py:289-310 | whichever plan is chosen, the new parity depends only on what the plan read and on the new data |
| RaidWrites.ParityKept | ostep/homework/file-raid/raid.py:286-320 | storing that parity keeps the parity invariant of the stripe |
| RaidWrites.OtherDataKept | ostep/homework/file-raid/raid.py:312-320 | no other data block changes |
| RaidWrites.PieceCanBeWritten | ostep/homework/file-raid/raid.py:286-320 | such a write always exists |
| RaidPlans.FewestReadsIff | ostep/homework/file-raid/raid.py:289-310 | the plan chosen issues the fewer reads of the two exactly unless the parity blocks of the stripe, counted as one by the program, make the subtractive plan the dearer one |
| RaidPlans.FewestReads | ostep/homework/file-raid/raid.py:289-310 | with chunks of one block the choice is always the cheaper plan |
| RaidPlans.LargeChunksReadMore | ostep/homework/file-raid/raid.py:289-299 | with larger chunks it is not: writes of the first blocks of the array for which the program issues more reads than needed |
| RaidRequests.EnqueueWrite | ostep/homework/file-raid/raid.py:333-354 | the loop over the stripes issues the plans of all pieces of the request in order, and nothing for an empty request, for which the source's division rounds towards zero |
| RaidRequests.StripesTouched | ostep/homework/file-raid/raid.py:335-336 | the stripes visited are exactly those that the request reaches into |
| RaidRequests.PiecesPartition | ostep/homework/file-raid/raid.py:338-354 | a block is in the piece of a stripe exactly when it is in the request and in the stripe |
| RaidRequests.RequestWritesOnce | ostep/homework/file-raid/raid.py:333-354 | a whole request writes every location at most once |
| RaidRequests.RequestCarried | ostep/homework/file-raid/raid.py:333-354 | after a whole request exactly its blocks hold the new data, all others their old data, and every stripe with correct parity still has it |
| RaidRequests.RequestCanBeCarried | ostep/homework/file-raid/raid.py:333-354 | every request can be carried out |
| MlfqObject.Scheduler.constructor | ostep/homework/cpu-sched-mlfq/mlfq.py:138-159 | all jobs at the highest priority, each with one event at its start time |
| MlfqObject.Scheduler.FindHighest | ostep/homework/cpu-sched-mlfq/mlfq.py:16-26 | the highest non-empty queue, or -1 if all are empty |
| MlfqObject.Scheduler.BoostAll | ostep/homework/cpu-sched-mlfq/mlfq.py:230-249 | the lower queues are emptied into the highest in order, and every unfinished job is raised, its ticks set to the allotment as in the source |
| MlfqObject.Scheduler.DeliverDue | ostep/homework/cpu-sched-mlfq/mlfq.py:252-261 | the events due put their jobs at the end or, with the -I option after an I/O, at the front of their queues |
| MlfqObject.Scheduler.RunFront | ostep/homework/cpu-sched-mlfq/mlfq.py:270-355 | one unit of time for the job at the front: finish, I/O, quantum and allotment as specified; MlfqOrder.TickPlaces says where the job then is |
| MlfqObject.Scheduler.Step | ostep/homework/cpu-sched-mlfq/mlfq.py:224-355 | one turn is the turn of the specification, and the checks of priority and remaining time in the source hold |
| MlfqObject.Scheduler.Run | ostep/homework/cpu-sched-mlfq/mlfq.py:224-355 | the loop terminates, by total time left and distance to the last event, in the state of a run in which every job is finished |
| MlfqTheorems.TurnKeepsInv | ostep/homework/cpu-sched-mlfq/mlfq.py:224-355 | no turn aborts and every turn keeps the invariant of queues, events and progress |
| MlfqRuns.InOnePlace | ostep/homework/cpu-sched-mlfq/mlfq.py:230-355 | in every run a finished job is in no queue and has no event, and any other job is once in the queue of its priority or has exactly one event to come |
| MlfqRuns.TurnRunsHighest | ostep/homework/cpu-sched-mlfq/mlfq.py:263-276 | a turn is idle exactly when no job waits; else exactly one job runs, the first one of the highest priority |
| MlfqRuns.PriorityFalls | ostep/homework/cpu-sched-mlfq/mlfq.py:335-355 | a job's priority never rises in a turn without a boost |
| MlfqRuns.JobGot | ostep/homework/cpu-sched-mlfq/mlfq.py:275-326 | at any time a job has run for its runtime minus the time left and has issued exactly the I/Os due by then |
| MlfqRuns.FinishedRun | ostep/homework/cpu-sched-mlfq/mlfq.py:297-326 | at the end each job ran for exactly its runtime, issued (runTime - 1) / ioFreq I/Os, and took at least its runtime and that many I/O times |
| MlfqRuns.Terminates | ostep/homework/cpu-sched-mlfq/mlfq.py:224-355 | every run ends, whatever the quanta, allotments, boost and options |
| MlfqRuns.TickSpendsBudget | ostep/homework/cpu-sched-mlfq/mlfq.py:328-355 | a tick costs one unit of what is left of allotment and quantum; the last unit moves the job one priority down with a full budget, and an I/O does not renew it without the -S option |
| MlfqRuns.RunKeepsLeft | ostep/homework/cpu-sched-mlfq/mlfq.py:328-355 | with positive quanta and allotments, unfinished jobs always have ticks and allotment left |
| MlfqOrder.BoostOrder | ostep/homework/cpu-sched-mlfq/mlfq.py:231-251 | a boost puts all waiting jobs in the highest queue: those that were there first, then those of the other queues from the lowest up, those of one queue in their order |
| MlfqOrder.DueJoin | ostep/homework/cpu-sched-mlfq/mlfq.py:253-262 | a job that begins or comes back joins behind all that wait at its priority, or, coming back under -I, before them |
| MlfqOrder.TickPlaces | ostep/homework/cpu-sched-mlfq/mlfq.py:292-355 | the job that ran stays at the front, or leaves the queues because it is finished or issues an I/O, or, at the end of its quantum, goes last in the queue of the priority it then has |
| MlfqOrder.QuantumEndsLast | ostep/homework/cpu-sched-mlfq/mlfq.py:328-355 | over a whole turn: a job whose quantum ended is behind all others in the queue it joins |
| MlfqOrder.TurnKeepsOrder | ostep/homework/cpu-sched-mlfq/mlfq.py:224-355 | two jobs in one queue before and after a turn keep their order, unless the first of them ends its quantum: then it is the second; boosts, deliveries and I/O bumps included |
| MlfqFair.EveryoneBetween | ostep/homework/cpu-sched-mlfq/mlfq.py:224-355 | in every run: between the end of a quantum of a job and its next turn, every other job that waited throughout at the priority it went to has run |
| MlfqFair.TimesReported | ostep/homework/cpu-sched-mlfq/mlfq.py:275-302 | in every run firstRun is the start of the first turn that the job gets, and endTime the end of the turn with its last unit |
| MlfqFair.TimeIs | ostep/homework/cpu-sched-mlfq/mlfq.py:264-288 | until all jobs are finished the time is the number of turns |
| MlfqFair.BoostDueIff | ostep/homework/cpu-sched-mlfq/mlfq.py:231-232 | boosts come at the positive multiples of the interval and at no other time |
| MlfqFair.JobsBegin | ostep/homework/cpu-sched-mlfq/mlfq.py:253-260 | each job is announced for its start time |
| MlfqFair.IoTakes | ostep/homework/cpu-sched-mlfq/mlfq.py:305-324 | a job that issues an I/O is due back exactly ioTime later |
| MlfqFair.NeverFalls | ostep/homework/cpu-sched-mlfq/mlfq.py:313-316 | with -S and no boost, a job that issues its I/Os before its quantum is used up keeps the highest priority for ever |
| MlfqFair.AllotmentsSpent | ostep/homework/cpu-sched-mlfq/mlfq.py:328-355 | without -S and boosts, a job has run for exactly what it may spend above its priority and what it has used of its allotment there, whatever I/Os it issues |
| ApproxCounter.StepKeepsInv | ostep/ch29-lock-based-data-structures/approx_counter.c:42-65 | every load, store, lock and unlock by any thread keeps: global + own counters, less those being transferred, equals the increments stored; mutual exclusion; and a counter on its way to the global one has reached the threshold, all others with a free lock are below it |
| ApproxCounter.RunKeepsInv | ostep/ch29-lock-based-data-structures/approx_counter.c:42-65 | the same in every interleaving |
| ApproxCounter.SumExactIff | ostep/ch29-lock-based-data-structures/approx_counter.c:42-65 | in every state of every run the counters together hold at least the increments stored, and exactly these if and only if no thread is between adding its core's counter to the global one and clearing it |
| ApproxCounter.QuietExact | ostep/ch29-lock-based-data-structures/approx_counter.c:59-65 | while no increment is under way the counters add up to exactly the calls that returned |
| ApproxCounter.GetExact | ostep/ch29-lock-based-data-structures/approx_counter.c:59-65 | the steps of a get that begins while no increment is under way return exactly that number, however they are interleaved with other gets, as long as nobody increments |
| ApproxCounter.GetReturns | ostep/ch29-lock-based-data-structures/approx_counter.c:59-65 | and one turn to begin and one for each core bring it there |
| ApproxCounter.GetAlone | ostep/ch29-lock-based-data-structures/approx_counter.c:59-65 | the loop of get, run on its own in a quiet state, returns that number too |
| ApproxCounter.GetWithin | ostep/ch29-lock-based-data-structures/approx_counter.c:59-65 | a concurrent get is within num_cpus times the threshold of the increments stored when it read the global counter |
| ApproxCounter.GetCanOvercount | ostep/ch29-lock-based-data-structures/approx_counter.c:50-53 | that bound is reached: with one core and threshold one, a get in the middle of a transfer counts an increment twice |
| ApproxCounter.WithinLimits | ostep/ch29-lock-based-data-structures/approx_counter.c:46-54 | the global counter never exceeds the increments stored and lags by at most the threshold per core; ApproxCounter.TransfersTimesLimit says in which steps it moves |
| ApproxCounter.StepTransfers | ostep/ch29-lock-based-data-structures/approx_counter.c:48-54 | a step that changes the global counter adds exactly the threshold (1 for a threshold of 0) |
| ApproxCounter.TransfersTimesLimit | ostep/ch29-lock-based-data-structures/approx_counter.c:42-57 | in every interleaving the global counter is the threshold times the number of times it has changed, and that is at most the increments stored |
| ApproxCounter.QuietBelowThreshold | ostep/ch29-lock-based-data-structures/approx_counter.c:42-65 | from any moment without a call under way: until some core's counter reaches the threshold, the global counter and its lock do not change and no get returns more than the increments stored |
| ApproxCounter.NoDeadlock | ostep/ch29-lock-based-data-structures/approx_counter.c:45-56 | whenever some call is under way, some call under way can go on |
| Ffs.RangeFree | ostep/homework/file-ffs/ffs.py:181-196 | whether the next chunk, cut to what is needed, lies in the group and is free |
| FfsObject.GroupAllocator.AllocateBlocks | ostep/homework/file-ffs/ffs.py:202-234 | terminates for every bitmap, chunk size and large-file limit and takes exactly size distinct free blocks and nothing else: those that the visits to the groups in turn give, from the target group on, each visit passing over nothing it could take and ending at the limit or the end of the group; with chunks of one and no limit below the size of a group, the first free ones of the round |
| FfsPlaces.PlacedFirst | ostep/homework/file-ffs/ffs.py:202-234 | each visit with chunks of one block gives the first min(limit, needed, free) free slots of its group |
| FfsPlaces.PlacedInRuns | ostep/homework/file-ffs/ffs.py:181-234 | in the first round each block taken begins a run of min(needed, chunk) free slots |
| FfsPlaces.StaysHome | ostep/homework/file-ffs/ffs.py:202-234 | with chunks of one block a file stays in its group if the group has room and the limit allows it |
| FfsObject.GroupAllocator.AllocateNothing | ostep/homework/file-ffs/ffs.py:202-234 | asked for no blocks, the loop ends only at its own assertion, which fails at a slot in use |
| FfsObject.GroupAllocator.FindFreeInodesNear | ostep/homework/file-ffs/ffs.py:149-161 | finds the first group with a free inode, in the order next, one before, second next and so on, whenever there is one; the fallback at its end is unreachable |
| Ffs.NearIsEveryOther | ostep/homework/file-ffs/ffs.py:150-158 | going up and down alternately tries every other group |
| FfsObject.FindMostFree | ostep/homework/file-ffs/ffs.py:133-147 | the first group with the most free slots, or -1 if there is none |
| FfsObject.FindFreeInode | ostep/homework/file-ffs/ffs.py:236-246 | the first free index, or -1 |
| FfsObject.GroupAllocator.PickGroup | ostep/homework/file-ffs/ffs.py:163-179 | a group with a free inode: for a file the parent's own, or else the first near it that has one; for a directory the first with most free inodes |
| FfsObject.GroupAllocator.constructor | ostep/homework/file-ffs/ffs.py:21-71 | only the root directory, tables and counts in order |
| FfsObject.GroupAllocator.DoCreate | ostep/homework/file-ffs/ffs.py:309-377 | for every size and every parent: succeeds exactly when inodes and blocks suffice, the parent is a known directory, the name is free and the size is not 0; stops with an error exactly on a parent that is a file or on a size of 0 that got so far; else changes nothing; a success takes the first free inode of the group chosen, places the blocks from that group on, or from the group with most free blocks, enters inode, blocks and name, and keeps all tables and counts in order |
| FfsObject.GroupAllocator.DoVerify | ostep/homework/file-ffs/ffs.py:416-436 | none of the assertions of the source's own check can fail |
| FfsObject.CountUsed | ostep/homework/file-ffs/ffs.py:417-424 | the slots used and the slots free are all the slots |
| FfsTables.CreatedOk | ostep/homework/file-ffs/ffs.py:349-374 | a creation keeps: names and inodes one to one, every path in its parent, every entry but the dots a path of the table, names in a directory different, blocks owned by the inode that lists them, and no block and no inode used by nothing |
| FfsTables.BlocksNotShared | ostep/homework/file-ffs/ffs.py:430-436 | no block belongs to two files |
| FfsEffects.CreateEffect | ostep/homework/file-ffs/ffs.py:349-374 | the new path names the new inode, with the kind asked for and the blocks in order; its directory lists it last; no other path, kind or block list changes |
| FfsEffects.DeleteEffect | ostep/homework/file-ffs/ffs.py:263-303 | a deletion takes away exactly the path and its entry and frees exactly the slots that the program computes; no other path, kind or block list changes |
| FfsObject.GroupAllocator.DoDelete | ostep/homework/file-ffs/ffs.py:263-303 | fails, changing nothing, if directory or name is unknown or the name is a directory's; stops with an error if the parent is a file or a slot is out of range; else takes out the entry and frees the slots computed, and leaves tables and counts in order exactly if these are the right ones |
| FfsDelete.DeleteKeepsOkIff | ostep/homework/file-ffs/ffs.py:289-297 | the program divides block and inode numbers by the number of groups, not by the size of a group: the tables stay in order if and only if the slot of every block of the file is among those computed and the slot of its inode is the one computed |
| FfsDelete.RightIsExact | ostep/homework/file-ffs/ffs.py:289-292 | then the slots freed are the file's own, each once, and no others |
| FfsDelete.SquareDiskDeletes | ostep/homework/file-ffs/ffs.py:289-297 | so it is for every file when there are as many groups as each group has blocks and inodes |
| FfsObject.DefaultDiskLeaks | ostep/homework/file-ffs/ffs.py:289-292 | and so it is not for a file of one block in the second group of a disk of the default sizes: its block is lost |
| Scheduling.FirstInFirstOut | ostep/homework/cpu-sched/scheduler.py:63-89 | the loop's sums: response and waiting sum of the order, turnaround sum = waiting sum + total runtime |
| Scheduling.ShortestFirstOptimal | ostep/homework/cpu-sched/scheduler.py:59-61 | for every list, the order by runtime has the least waiting sum of all orders of the same jobs |
| Scheduling.TotalOfPermutation | ostep/homework/cpu-sched/scheduler.py:77-87 | the total runtime does not depend on the order |
| Scheduling.TurnaroundOptimal | ostep/homework/cpu-sched/scheduler.py:59-61 | and the least turnaround sum |
| Scheduling.RoundRobin | ostep/homework/cpu-sched/scheduler.py:91-129 | the loop ends, at the sum of the runtimes, and its trace tiles that time: slices of a quantum or what is left of the job, all n-th turns before any next one and in the order of the jobs, adding up to each job's runtime; response, turnaround and waiting time of each job are the start of its first slice, the end of its last one and the time before that in which others ran; job i responds within i quanta |
| Scheduling.RunNext | ostep/homework/cpu-sched/scheduler.py:108-129 | one turn: the first job of the list has the next slice of the trace, and the books keep saying what the trace says |
| Slices.BetweenTurns | ostep/homework/cpu-sched/scheduler.py:107-125 | between two consecutive slices of a job, every other job not finished at the first runs exactly once |
| Slices.SlicesOf | ostep/homework/cpu-sched/scheduler.py:110-126 | in any trace the three times of a job are read off its first slice, its last one, and the slices of others before that |
| Slices.RanOrWaited | ostep/homework/cpu-sched/scheduler.py:113-126 | the last end of a job is the time it ran and the time it waited |
| ForkObject.Forker.DoFork | ostep/homework/cpu-api/fork.py:154-159 | the new process is a child of its parent, under any name; the structure is a tree afterwards exactly if the name was not in use |
| ForkObject.Forker.ExitAction | ostep/homework/cpu-api/fork.py:258-267 | an unknown process and the exit of the root stop the program; under the leaf-only rule a process with children does not exit, and no process ever changes its parent |
| ForkObject.Forker.CollectChildren | ostep/homework/cpu-api/fork.py:161-168 | lists exactly the process and its descendants, each once; from the root, exactly the live processes |
| ForkObject.Forker.DoExit | ostep/homework/cpu-api/fork.py:170-198 | under either rule the exit leaves a tree: the children go to the parent, or all descendants to the root; the root's exit stops the program |
| ForkTree.CollectIs | ostep/homework/cpu-api/fork.py:161-168 | the recursive listing is without repetition and holds exactly the descendants |
| ForkTree.ForkKeepsInv | ostep/homework/cpu-api/fork.py:154-159 | a fork keeps parents and children inverse, each process listed once, and every process younger than its parent |
| ForkTree.ForkKeepsInvIff | ostep/homework/cpu-api/fork.py:154-159 | a fork keeps that if and only if no live process has the name |
| ForkTree.AllDescendFromRoot | ostep/homework/cpu-api/fork.py:154-198 | hence the structure is a tree: every live process descends from the root |
| ForkTree.ExitLocalKeepsInv | ostep/homework/cpu-api/fork.py:177-181 | the same when the children go to the parent |
| ForkTree.ExitGlobalKeepsInv | ostep/homework/cpu-api/fork.py:182-189 | the same when all descendants go to the root |
| TreeEffects.ForkAncestors | ostep/homework/cpu-api/fork.py:154-159 | the new process descends from its parent and exactly whom that descends from |
| TreeEffects.ForkKeepsAncestry | ostep/homework/cpu-api/fork.py:154-159 | a fork leaves the ancestry of all others alone |
| TreeEffects.ExitLocalKeepsAncestry | ostep/homework/cpu-api/fork.py:177-181 | when the children go to the parent, every survivor keeps all its surviving ancestors |
| TreeEffects.ExitGlobalAncestry | ostep/homework/cpu-api/fork.py:182-189 | when all descendants go to the root, they keep no other ancestor, and everybody else keeps all |
| ForkObject.NameSource.GetName | ostep/homework/cpu-api/fork.py:87-93 | the next name of the list, or the first of the grown one; never a name given before, across all growths |
| ForkObject.NameSource.GrowNames | ostep/homework/cpu-api/fork.py:78-85 | every present name extended by every base character, in order; all different and longer than all before |

## Left out

- Character-level work: parsing of VM and assembly lines, comments, white space, symbol syntax, and error texts.
- Rendering: words are sequences of bits, not strings of `0` and `1`; comment lines of the emitted assembly are dropped.
- Several VM files in one program are not run: `Clashes.FilesClash` shows that their comparison labels clash as soon as two files have a comparison with the same number.
- Translator.TranslationState.CommandToAsm: a 16-bit overflow of `5 + nargs`, `3 + index` or `5 + index` is a refusal, as in a build with overflow checks; a wrapping build is not modelled.
- Compiler.CompilerCorrect: a forward simulation of the steps that the abstract machine can make; nothing is said after it is stuck (stack underflow, index out of range, stack reaching the heap).
- Records kept as values: inodes, blocks, directory lists, cache entries and job records are values inside fields of the classes, since the simulators never share them; the AFS server and its clients are one object.
- File system: the reference count decrease for a directory at `vsfs.py` line 289 is dead, since only files are deleted, and is not modelled; random choices of names and targets are parameters; the driver that stops when the disk is full, the dumps and the printed calls are left out.
- AFS: hit, miss and read counts, printing, and file descriptors, which are resolved to file names.
- RAID: reads, disk timing, seek models and windows; `int(x / y)` is exact integer division, rounding to zero, not through floating point.
- MLFQ: option parsing, random job lists, averages; jobs must have startTime >= 0, runTime >= 1 and ioTime >= 0, without which the loop never ends or stops with an error.
- ApproxCounter.GetWithin: counters are unbounded and each 64-bit load is atomic; wrap-around at 2^64 and the data race of get in C are not modelled.
- FFS: allocate_faraway above 1, display symbols (the program stops when it runs out of them) and spans.
- FfsObject.GroupAllocator.DoCreate: nothing is said of the tables where the program stops with an error.
- FfsObject.GroupAllocator.DoDelete: the same; and the type of a deleted inode, which the program sets to the empty string, is absent from the map.
- Scheduling.RoundRobin: job lengths are real numbers, not negative; averages and printing are left out, and Python's sort is any order by runtime.
- ForkObject.Forker.DoFork: requires a live parent, without which the program stops; nothing is said of later actions once a name is used twice; the action-string parser and the random generator are left out.
- ForkObject.NameSource.GetName: the base names are any sequence of different characters that begins with a.
- Process, lottery, multi-processor and disk-animation simulators, the other C programs, kernel modules, drivers, the Y86 disassembler and the vendored test framework: they repeat weaker claims, or are I/O and hardware.
