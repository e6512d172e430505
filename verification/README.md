# CanBoot verification

A Dafny model of the parts of CanBoot whose correctness is hardest to see, with proofs about them:

- the AArch64 loop-trace compiler of the CanDo JIT (`A64*.dfy`, `Trace*.dfy`): instruction encodings, a machine that
  executes them, the trace IR and its one-iteration meaning, the emitter with its byte buffer and backpatching, and
  compiler correctness from IR to machine;
- the FAT32 path engine (`Fat*.dfy`): chains, directories, the volume as a tree of names, all operations of the path
  API, `mkfs` and mounting;
- the TFTP client against an adversarial network (`Tftp.dfy`);
- the xHCI transfer and event rings (`XhciRing.dfy`) and the virtio receive queue (`VirtioRx.dfy`,
  `VirtioPump.dfy`) in every interleaving with the device;
- NVMe transfers and queue pairs (`NvmeRw.dfy`, `NvmeQueue.dfy`);
- NTFS mapping pairs (`NtfsRuns.dfy`);
- CRC-32 and GPT (`Crc32.dfy`, `GptTable.dfy`, `GptDisk.dfy`);
- the Bresenham line of the display HAL (`Line.dfy`).

`Basics.dfy`, `Bytes.dfy`, `Blocks.dfy` and `Cyclic.dfy` are shared definitions and arithmetic on byte strings and
circular counters.
`dafny verify dfyconfig.toml` covers the whole project.

## How the model is laid out

Code that updates state in place is a class or a method with loops, tied to a function or predicate on values;
protocols are state machines over values whose steps are the source's atomic actions, and their theorems range over
every run. The FAT volume is a class with the table and the clusters as fields and a ghost layout that says which
chain is which directory or file; `FatVolume.Wf` is the invariant, `FatVolume.Lookup` the tree of names it represents,
and `FatPath.PathNode` what a path string means in it.

Properties that do not hold of the code as it stands are stated with the exact condition under which they do:

- in a buffer beyond 1 MiB a guard can be out of branch range (`TraceLink.BranchesResolve`), and then the compiled code
  misses its exit (`TraceFar.FarGuardFaults`); buffers from the 256 KiB arena are small enough (`TraceFar.ArenaInRange`);
- the 32-bit size estimate of a very long trace wraps, so that its buffer is too small (`TraceFar.RoomExactly`,
  `TraceFar.ArenaRoom`);
- a write refused for lack of clusters has freed the old chain, and harms the file unless it had none or fits one
  cluster and at most 256 were asked for (`FatWrite.Survives` in `FatWrite.WriteFile` and `FatPath.WritePath`;
  `FatRuns.OverwriteRuins`);
- a file or directory stored under a name whose first byte is 0xE5 is invisible (`FatPath.WriteThenRead`; `FatMake.Mkdir`
  and `FatRename.Rename` say what happens then);
- renaming a directory into its own subtree cuts it off (`FatReach.StaysReachable`, `FatMoved.CutOff`,
  `FatRuns.RenameLoses`);
- a volume of 16 GiB or more gets clusters that the path engine's buffers cannot hold (`FatFormat.ClusterFits`,
  `FatFormat.FreshWf`), and from 2^32 + 32 sectors on mounting does not recover the geometry (`FatFormat.OpenExactly`);
- TFTP block numbers wrap (`Tftp.SafeExactly`);
- fifteen outstanding TRBs can stop a controller that rests on the link TRB (`XhciRing.LiveExactly`), and thirty-one
  make it execute one out of order (`XhciRing.SafeExactly`);
- a timed-out NVMe command leaves a completion that answers the next one (`NvmeQueue.MatchExactly`);
- GPT on disks of 64 to 66 sectors overlaps itself (`GptDisk.LargeExactly`);
- the 32-bit error term of a very long line overflows (`Line.Draw`, `Line.FitsExactly`; `Line.NearDiagonal`).

## Model
| member | source | states |
|---|---|---|
| A64.DecodeEncode | cando_port/jit/codegen_aarch64.c:159-290 | every instruction the emitter can form decodes back to itself, so the words written determine the instructions executed |
| A64.EmittedIsEncode | cando_port/jit/codegen_aarch64.c:159-290 | for every instruction the emitter can form, or-ing opcode and shifted fields, as the emitters do, gives the word that decodes back: the fields share no bit |
| A64.OrBit | cando_port/jit/codegen_aarch64.c:159-290 | the word operation behind it is or, bit by bit |
| A64.FoldedWords | cando_port/jit/codegen_aarch64.c:203-290 | the opcodes with a register folded in (mov, compare with 0, cset, ret) are the general encodings |
| TraceRun.RunImm | cando_port/jit/codegen_aarch64.c:203-211 | the movz/movk sequence leaves exactly the 64-bit constant in its register, whatever lanes are zero |
| TraceFrame.RunPrologue | cando_port/jit/codegen_aarch64.c:318-332 | from an AAPCS64 entry the prologue saves the callee-saved registers and parks vm, trace, slots and vals in x19 to x22 |
| TraceFrame.RunEpilogue | cando_port/jit/codegen_aarch64.c:334-343 | the epilogue restores every callee-saved register and SP and returns to the caller |
| TraceFrame.RunLoopDone | cando_port/jit/codegen_aarch64.c:718-721 | the loop-done path returns status 0 with the state as it stands |
| TraceFrame.RunExit | cando_port/jit/codegen_aarch64.c:723-743 | from a guard stub the common exit replays exactly the snapshot named by the stub, once, and returns status 1 |
| TraceBlocks.KBlock | cando_port/jit/codegen_aarch64.c:348-363 | constant blocks write the constant and nothing else the trace can see |
| TraceBlocks.SLoadBlock | cando_port/jit/codegen_aarch64.c:366-376 | the slot load copies a number and leaves through its guard otherwise |
| TraceBlocks.SStoreBlock | cando_port/jit/codegen_aarch64.c:378-394 | the slot store boxes the value, every NaN as the one canonical NaN |
| TraceBlocks.ArithBlock | cando_port/jit/codegen_aarch64.c:396-408 | add, subtract, multiply and divide blocks compute the IR operation |
| TraceBlocks.NegBlock | cando_port/jit/codegen_aarch64.c:410-416 | the negation block computes the IR operation |
| TraceBlocks.CondMeansCompare | cando_port/jit/codegen_aarch64.c:418-437 | the condition code picked for each comparison, read from the floating-point flags, is the IEEE comparison, NaNs included |
| TraceBlocks.CompareBlock | cando_port/jit/codegen_aarch64.c:418-437 | comparison blocks yield 1.0 or 0.0 as the IR comparison does |
| TraceBlocks.ClearVMeansOrdered | cando_port/jit/codegen_aarch64.c:378-394 | the no-overflow branch after comparing a value with itself is taken exactly for values that are not NaN |
| TraceBlocks.GuardBlock | cando_port/jit/codegen_aarch64.c:505-516 | boolean guards go on or leave through their own snapshot exactly as the IR guard does |
| TraceCalls.ModBlock | cando_port/jit/codegen_aarch64.c:439-450 | the remainder block calls the helper and keeps everything the trace relies on |
| TraceCalls.CallBlock | cando_port/jit/codegen_aarch64.c:487-503 | the fast native call block computes what the native computes |
| TraceCalls.GLoadBlock | cando_port/jit/codegen_aarch64.c:452-467 | the global load stores the number read, or leaves through its guard when the helper reports failure |
| TraceCalls.GStoreBlock | cando_port/jit/codegen_aarch64.c:469-485 | the global store has the effect of the helper, or leaves through its guard |
| TraceLink.BCondReach | cando_port/jit/codegen_aarch64.c:276-286 | a patched conditional branch decodes to its target exactly when the target is less than 2^18 instructions ahead |
| TraceLink.BReach | cando_port/jit/codegen_aarch64.c:266-274 | the same for the unconditional branch and 2^25 instructions |
| TraceLink.LinkedGuard | cando_port/jit/codegen_aarch64.c:298-304 | after patching, a guard keeps its condition and its displacement field counts to its own stub, and the stub loads its own snapshot |
| TraceLink.BranchesResolve | cando_port/jit/codegen_aarch64.c:271-304 | all guards reach their own stubs, all stubs the common exit and all loop branches the loop-done epilogue if and only if every branch fits its field |
| TraceFar.ShortTraceInRange | cando_port/jit/codegen_aarch64.c:636-753 | every trace of up to 10917 IR instructions has its branches in range |
| TraceFar.FarGuardMisses | cando_port/jit/codegen_aarch64.c:281-286 | a guard followed by 32768 slot stores or more: its patched branch misses the stub |
| TraceFar.FarGuardFaults | cando_port/jit/codegen_aarch64.c:281-286 | run with a failing guard, the compiled code of such a trace branches below its first instruction and faults where the interpreter leaves through the guard |
| TraceCodegen.SizeFits | cando_port/jit/codegen_aarch64.c:642-743 | 512 + 96 bytes per IR instruction hold prologue, body, stubs and both epilogues, as long as the sum does not wrap |
| TraceFar.EstimateWraps | cando_port/jit/codegen_aarch64.c:642 | one instruction more and the 32-bit sum is 64 bytes, in which no trace has room |
| TraceFar.RoomExactly | cando_port/jit/codegen_aarch64.c:642-743 | for every number n of instructions: the whole pages granted for the estimate hold every function if and only if the sum does not wrap, or the wrapped one has outgrown the longest function, of 32 n + 36972 bytes |
| TraceFar.ArenaRoom | cando_port/runtime/stubs.c:167-185 | of the buffers that the 256 KiB arena can hold, exactly those for at most 2725 instructions are always large enough |
| TraceFar.ArenaInRange | cando_port/runtime/stubs.c:167-185 | whatever is compiled into a buffer of up to four times the arena has all its branches in range |
| TraceCorrect.StepAny | cando_port/jit/codegen_aarch64.c:655-708 | the block of any IR instruction does to the machine what the interpreter does to the trace state |
| TraceCorrect.SimulateFrom | cando_port/jit/codegen_aarch64.c:655-708 | the same for the rest of the trace from any instruction on |
| TraceMeaning.NegEval | cando_port/jit/codegen_aarch64.c:410-416 | negation flips bit 63 of the double and keeps the other 63 bits, and changes no other value |
| TraceMeaning.NegRun | cando_port/jit/codegen_aarch64.c:410-416 | so does the block it is compiled to, run on the machine |
| TraceMeaning.TruthEval | cando_port/jit/codegen_aarch64.c:418-437 | comparisons and boolean constants yield the bits of 1.0 or of 0.0, comparison by comparison |
| TraceMeaning.StoreEval | cando_port/jit/codegen_aarch64.c:378-394 | a slot store writes the bits, every NaN as 0x7FF8000000000000, to its slot alone |
| TraceMeaning.LoadEval | cando_port/jit/codegen_aarch64.c:366-376 | a slot load takes exactly the values below 0xFFF8000000000000, and leaves through the current snapshot otherwise |
| A64Machine.AndBit | cando_port/jit/codegen_aarch64.c:366-376 | the machine's and is and, bit by bit |
| TraceCorrect.CompiledCorrect | cando_port/jit/codegen_aarch64.c:318-509 | for every accepted trace with branches in range and every entry state the compiled function returns the status, vals, slots, globals and replayed snapshot of one interpreted iteration, with SP and callee-saved registers restored |
| TraceEmitter.Emitter.Emit | cando_port/jit/codegen_aarch64.c:139-147 | appends one instruction word, or fails and writes nothing when the buffer is full |
| TraceEmitter.Emitter.Patch | cando_port/jit/codegen_aarch64.c:151-156 | rewrites one word in place and leaves all others |
| TraceEmitter.Emitter.PatchCond | cando_port/jit/codegen_aarch64.c:281-286 | patches a conditional branch with the condition read back from the placeholder |
| TraceEmitter.Emitter.EmitSStore | cando_port/jit/codegen_aarch64.c:378-394 | the two inner branches of the slot store are patched to land on the plain store and behind it |
| TraceEmitter.Emitter.CompileOp | cando_port/jit/codegen_aarch64.c:655-708 | one round of the compile loop appends the block of its instruction and records its branch, or fails exactly where there is no encoding |
| TraceCodegen.PatchAll | cando_port/jit/codegen_aarch64.c:747-753 | the patch loops turn the emitted draft into the linked function |
| TraceCodegen.CodegenLoopTrace | cando_port/jit/codegen_aarch64.c:636-753 | in a buffer of any size the call succeeds exactly on acceptable traces whose finished function has room, and the bytes disassemble to the linked function |
| TraceFar.CompileLoop | cando_port/jit/codegen_aarch64.c:636-753 | the bytes it writes, disassembled and run from any entry state, agree with one interpreted iteration, always in a buffer from the arena, and in a larger one if the branches are in range |
| FatChain.FindFree | fs/fat32.c:268-275 | finds the lowest free cluster, or reports that none is free |
| FatChain.FreeChain | fs/fat32.c:727-736 | terminates on every walk that stays in the table, cyclic ones included, and clears exactly the clusters the walk visits |
| FatChain.VisitedChain | fs/fat32.c:727-736 | on a well-formed chain the walk visits exactly the chain |
| FatChain.AllocChain | fs/fat32.c:709-725 | succeeds exactly for 1 to 256 clusters that are free, and then links the lowest free clusters in ascending order into a chain ended by 0x0FFFFFFF and takes exactly those; running out leaves every free cluster reserved and all else as it was, an unacceptable count changes nothing |
| FatChange.ChainSafety | fs/fat32.c:710-736 | in a well-formed volume any two chains are in range, acyclic, ended, not marked free and disjoint |
| FatVolume.PutSlotView | fs/fat32.c:655-662 | rewriting one directory slot changes that slot only, no chain and no file content |
| FatDir.Volume.DirFind | fs/fat32.c:595-622 | finds the visible entry of a name, or there is none |
| FatDir.Volume.DirAllocSlot | fs/fat32.c:626-652 | yields the first unused slot, in a fresh blank cluster if need be, keeps the volume well formed, and fails without effect exactly when it needs a cluster and none is free |
| FatDir.Volume.DirWriteEntry | fs/fat32.c:655-662 | replaces exactly one slot |
| FatDir.Volume.DirMarkDeleted | fs/fat32.c:664-671 | replaces the first name byte of exactly one slot |
| FatDir.Volume.DirIsEmpty | fs/fat32.c:674-696 | true exactly if every slot is unused, a long-name entry, "." or ".." |
| FatVolume.MakeEntryFirst | fs/fat32.c:698-707 | the two halves of the first cluster read back as the cluster |
| FatVolume.EntryParts | fs/fat32.c:698-707 | a new entry holds name, attribute, size and the two halves of the first cluster |
| FatVolume.EntryKinds | fs/fat32.c:595-622 | an entry is seen unless its name starts with 0 or 0xE5 or attribute bit 3 is set, and is a directory exactly if bit 4 is set |
| FatImage.SlotBack | fs/fat32.c:698-707 | the 32 bytes of an entry read back as the entry |
| FatFile.WriteData | fs/fat32.c:851-872 | the clusters of the chain hold exactly the data and then zeros, and no other cluster changes |
| FatFile.ReadData | fs/fat32.c:813-828 | reads exactly the first bytes of a chain |
| FatTree.LookupFrame | fs/fat32.c:595-671 | a step that rewrites one slot and gives up one chain changes no other lookup |
| FatOps.FillHole | fs/fat32.c:655-662 | completing the one open slot with a suitable entry makes the volume well formed |
| FatFull.ReserveSame | fs/fat32.c:709-725 | clusters left reserved by a failed allocation change no lookup and leave the volume well formed |
| FatFull.StumpKeeps | fs/fat32.c:709-736 | a file that fits one cluster survives when its freed chain is reserved again: its first cluster is a chain of its own |
| FatFull.Dangling | fs/fat32.c:709-736 | an entry whose chain was freed, or cut to one cluster that does not hold the file, is well formed under no layout that has its directory |
| FatWrite.WriteFile | fs/fat32.c:842-876 | succeeds exactly when the name is no directory and the clusters suffice; then the name holds exactly the data, every other lookup is unchanged, the volume is well formed and the free count moved by chain freed minus clusters taken, directory extension included, with attribute 0x20 and the size in its entry; a write refused for lack of clusters leaves the volume well formed with every lookup as it was, or damaged under every layout with a table known entry by entry, according to `Survives` |
| FatWrite.RefusedKeeps | fs/fat32.c:709-876 | the harmless case: the replaced file fits its first cluster and at most 256 clusters were asked for |
| FatWrite.RefusedBreaks | fs/fat32.c:709-876 | the damage case, with the table it leaves |
| FatRemove.ReadFile | fs/fat32.c:809-828 | returns the bytes the tree has for the name, as many as the buffer takes |
| FatRemove.Unlink | fs/fat32.c:882-885 | succeeds exactly on a file, removes that name only, keeps the volume well formed and frees exactly the clusters of the chain its entry starts |
| FatRemove.Rmdir | fs/fat32.c:923-929 | succeeds exactly on a directory that holds nothing, removes that name only, keeps the volume well formed and frees exactly its clusters |
| FatRemove.EmptyHasNoNames | fs/fat32.c:674-696 | a directory accepted as empty has no name but its dots |
| FatMake.Mkdir | fs/fat32.c:897-917 | succeeds exactly when the name is new and there is room; the new directory holds only "." and ".." with the right targets, nothing else changes, its entry has attribute 0x10, and one or two clusters are taken; a failed call changes no lookup, and uses up the free clusters or nothing |
| FatMake.DotLookup | fs/fat32.c:906-911 | in a well-formed volume "." is the directory and ".." its parent, 0 for the root |
| FatRename.SameParent | fs/fat32.c:953-964 | the new parent's first cluster equals the cluster that holds the old entry only if both directories are the same, by disjointness of chains |
| FatRename.Rename | fs/fat32.c:932-965 | succeeds exactly when the old name exists, the new one does not and its directory has room; the node moves, a moved directory's ".." names the new parent, every other lookup is unchanged, the volume stays well formed, and at most one cluster is taken; a failed call changes nothing |
| FatReach.StaysReachable | fs/fat32.c:932-965 | a moved directory stays reachable from the root if and only if its new parent is reachable without passing through it |
| FatReach.IntoItself | fs/fat32.c:932-965 | a directory renamed to a name inside itself is reachable no more |
| FatName.To83 | fs/fat32.c:172-192 | packs base and extension, upper-cased, cut to 8 and 3 bytes and padded |
| FatName.PackBytes | fs/fat32.c:172-192 | byte by byte: up to 8 bytes before the first dot and up to 3 behind it, 97 to 122 lowered by 32 and all others as they are, 32 elsewhere, and no small letter is left |
| FatName.PackFirst | fs/fat32.c:172-192 | no packed name starts like a dot entry or an end marker; it starts with the deletion mark exactly if the name does |
| FatName.PackRoundTrip | fs/fat32.c:172-192 | unpacking a packed 8.3 name gives the name with its small letters as capitals, byte by byte |
| FatName.PackInjective | fs/fat32.c:172-192 | two 8.3 names pack alike exactly if they are equal up to c and c + 32 for c from 65 to 90 |
| FatName.NameFrom83 | fs/fat32.c:581-593 | the name of a packed entry |
| FatName.SplitLast | fs/fat32.c:739-763 | parent and leaf of a path, as far as they fit |
| FatName.SplitJoins | fs/fat32.c:739-763 | the parts put back together give the path up to slashes |
| FatName.SplitBack | fs/fat32.c:739-763 | parent, slash and leaf split again, exactly if parent and leaf fit 255 and 15 bytes |
| FatName.CompsJoin | fs/fat32.c:770-776 | walking a joined path yields its components |
| FatPath.ResolveDir | fs/fat32.c:766-789 | the directory that the path's components lead to from the root, or failure |
| FatPath.Locate | fs/fat32.c:792-803 | parent directory and packed leaf of a path |
| FatPath.SamePath | fs/fat32.c:739-803 | paths that differ in case only stand for the same name in the same directory, whatever their length |
| FatPath.ReadPath | fs/fat32.c:805-829 | the bytes of the file that the path names |
| FatPath.WritePath | fs/fat32.c:831-877 | every path to the name written leads to exactly the data, every other path to what it led to; success, well-formedness and free count as for WriteFile; a refused write leaves every path as it was, or a volume that no layout makes well formed, according to the same condition |
| FatPath.WriteThenRead | fs/fat32.c:805-877 | reading a path just written gives the data back if and only if the packed name does not start with the deletion mark |
| FatPath.UnlinkPath | fs/fat32.c:879-886 | every path to the file is gone, every other path leads to what it led to |
| FatPath.MkdirPath | fs/fat32.c:888-918 | every path to the name leads to the new empty directory, every other path to what it led to; free count and failures as for Mkdir |
| FatPath.RmdirPath | fs/fat32.c:920-930 | every path to the directory is gone, every other path leads to what it led to |
| FatPath.MakeThenRemove | fs/fat32.c:888-930 | a directory just made can be removed, exactly if its name does not start with the deletion mark |
| FatMoved.NodesMoved | fs/fat32.c:932-965 | after a rename, of a file or a directory, every list of components leads to what the old tree says: nothing through the old name, through the new one what the old name led to, all else as before |
| FatMoved.OldNameGone | fs/fat32.c:932-965 | no path through the old name leads anywhere |
| FatMoved.NewNameLeads | fs/fat32.c:932-965 | new name plus rest leads to what old name plus rest led to, exactly unless the way to the new name passed the old one |
| FatMoved.PassesExactly | fs/fat32.c:932-965 | it passes the old name if and only if the new parent cannot be reached without the moved directory |
| FatMoved.CutOff | fs/fat32.c:932-965 | in that case the directory disappears with all it holds and every other path stays |
| FatMoved.RenamePath | fs/fat32.c:932-965 | rename by path: succeeds exactly when the old path names something, the new one nothing and there is room; then every path string leads to what the move says, and a failed call changes nothing |
| FatMoved.RenamedEnds | fs/fat32.c:932-965 | afterwards the old path names nothing, and the new one what the old one named |
| FatRuns.OverwriteRuins | fs/fat32.c:831-877 | a run: replacing a file of one byte by data of more than 256 clusters fails and leaves a volume that is well formed under no layout |
| FatRuns.RenameLoses | fs/fat32.c:932-965 | a run: renaming /A to /A/B succeeds and no path leads to the directory any more |
| FatFormat.FixedPoint | fs/fat32.c:427-437 | the FAT-size iteration is stable after its first correction |
| FatFormat.SizeFat | fs/fat32.c:427-437 | the iteration stops at that size, in its second round at the latest, and the table then holds its clusters |
| FatFormat.TwoMoreEntries | fs/fat32.c:427-441 | the table holds clusters + 2 entries although only clusters are asked for |
| FatFormat.OpenExactly | fs/fat32.c:76-113 | mounting the boot sector of a fresh volume recovers the geometry it was formatted with if and only if it has fewer than 2^32 + 32 sectors |
| FatFormat.MountExactly | fs/fat32.c:76-113 | mounting refuses exactly the boot sectors with no sector or cluster size, a 16-bit table size or root entries, and takes the geometry from the fields |
| FatFormat.LargeTurnedAway | fs/fat32.c:438-441 | a size of more than 2^32 clusters that is turned away because its count is taken modulo 2^32 |
| FatFormat.Disk.Format | fs/fat32.c:414-517 | accepts exactly the sizes with enough clusters, counted in 32 bits, that fit the disk, writes boot sector, information sector, both tables and the root cluster, and nothing outside the volume |
| FatFormat.PadLabel | fs/fat32.c:466-477 | the label in capitals, cut to 11 bytes and padded, or CANBOOT |
| FatImage.FormattedImage | fs/fat32.c:445-515 | the sectors of a fresh volume byte by byte: boot sector at 0 and 6, information sector at 1 and 7, heads of both tables, zeros elsewhere |
| FatImage.BootImage | fs/fat32.c:445-487 | the fields of the boot sector, with their constants, and zeros elsewhere |
| FatImage.ClusterBytes | fs/fat32.c:405-412 | a mounted fresh volume has clusters of 512 bytes below 260 MiB, 4 KiB below 8 GiB, 8 KiB below 16 GiB, 16 KiB below 32 GiB, then 32 KiB |
| FatImage.AcceptedExactly | fs/fat32.c:414-441 | up to 128 TiB exactly the sizes from 66597 sectors on are accepted |
| FatFormat.FreshEntry | fs/fat32.c:122-133 | in both copies of a fresh table the root's cluster ends its chain and every other cluster is free |
| FatFormat.FreshFree | fs/fat32.c:268-275 | exactly clusters - 1 clusters are free, as the information sector says |
| FatFormat.FreshWf | fs/fat32.c:497-515 | the sectors of a fresh volume mount with the geometry laid out, and the volume read off them is empty, has all clusters but one free, and is well formed exactly below 16 GiB |
| FatFormat.ClusterFits | fs/fat32.c:405-412 | the 8192-byte cluster buffers fit exactly on volumes below 16 GiB |
| Tftp.Transfer.Receive | net/tftp.c:98-136 | the receive callback |
| Tftp.StepOk | net/tftp.c:98-182 | every step of client, server and network keeps: the bytes stored are the blocks up to the block number, and done means all |
| Tftp.AlwaysSafe | net/tftp.c:98-182 | in every run with losses, duplicates and reordering a file of fewer than 65536 blocks is stored as a prefix, and completely when the call returns 0 |
| Tftp.ReturnExactly | net/tftp.c:177-181 | when the call returns, it returns 0 if the last block is stored and no error was met, and -1 otherwise |
| Tftp.SucceedsExactly | net/tftp.c:138-182 | some run returns 0, with the whole file stored, if and only if the file fits the buffer |
| Tftp.DataBytes | net/tftp.c:105-108 | a DATA packet byte by byte |
| Tftp.OtherPackets | net/tftp.c:110-111 | an ERROR packet ends the transfer, whoever sent it; other packets that are not DATA are ignored |
| Tftp.TimerExactly | net/tftp.c:160-171 | the timer is reset after progress, sends the request or the last acknowledgement again up to five times, and then returns |
| Tftp.GivesUp | net/tftp.c:155-182 | with nothing delivered the request is sent five more times, and then the call fails |
| Tftp.StaleBlock | net/tftp.c:116-129 | with 65536 blocks or more a late copy of block 1 is stored as block 65537 |
| Tftp.SafeExactly | net/tftp.c:98-182 | transfers of n bytes are safe in every run if and only if they have fewer than 65536 blocks |
| XhciRing.Ring.Push | hal/usb/xhci.c:213-226 | writes the TRB with the producer cycle and turns link and cycle at the end of the ring |
| XhciRing.InOrder | hal/usb/xhci.c:206-226 | in every interleaving with at most 30 TRBs outstanding, over any number of laps, the controller executes exactly the pushed TRBs once each in order |
| XhciRing.TwiceOverwritten | hal/usb/xhci.c:213-226 | a run with 31 outstanding in which it executes a TRB out of order: the slot was overwritten twice |
| XhciRing.SafeExactly | hal/usb/xhci.c:206-226 | it executes exactly the pushed TRBs in order, in every run, if and only if at most 30 are outstanding |
| XhciRing.StuckExactly | hal/usb/xhci.c:220-225 | the controller has work but owns nothing exactly when it rests on the link with 15 to 29 TRBs outstanding, or elsewhere with more than 15 |
| XhciRing.FullRingStops | hal/usb/xhci.c:220-225 | a run with 15 outstanding that ends stuck |
| XhciRing.LiveExactly | hal/usb/xhci.c:213-226 | the controller is never stuck, in any run, if and only if at most 14 TRBs are outstanding |
| XhciRing.EventRing.Poll | hal/usb/xhci.c:231-242 | takes the event at the reader's place exactly if its cycle bit matches |
| XhciRing.EventsInOrder | hal/usb/xhci.c:231-242 | polling yields exactly the posted events once each in order, and is ready exactly while one is left |
| VirtioRx.Queue.PublishWritable | hal/virtio/virtio_pci.c:189-202 | the descriptor points at the buffer, writable and unchained, its id enters the available ring and the index moves; an id beyond the queue is ignored |
| VirtioRx.Queue.UsedAdvance | hal/virtio/virtio_pci.c:230-236 | with fewer than 2^16 elements outstanding, exactly the number completed and not yet seen, across the wrap of both counters |
| VirtioRx.Queue.Pump | hal/net/virtio_net.c:130-145 | with a quiet device and any contents of the rings: hands over exactly the new elements in order and publishes each one's own buffer again; ids beyond the queue are skipped; from every state of the machine that the queue shows, the pass is a run of the machine |
| VirtioRx.PassIsRun | hal/net/virtio_net.c:130-145 | what such a pass leaves in ring and counters is where the machine's begin, dispatch, publish and end steps lead |
| VirtioPump.System.Pump | hal/net/virtio_net.c:130-145 | with the device completing and fetching between any two steps of the code: the pass is a run of the machine, so its invariant holds, and it hands over in order at least the frames complete when it began, every descriptor pointing at its own buffer |
| VirtioRx.KeptAll | hal/net/virtio_net.c:130-145 | none is skipped if the device uses ids of the queue |
| VirtioRx.StepKeeps | hal/net/virtio_net.c:127-145 | every step of driver and device keeps each descriptor in exactly one place and the rings, counts and data right |
| VirtioRx.FramesInOrder | hal/net/virtio_net.c:127-145 | in every run each descriptor has one owner, their number is constant, and every completed frame is dispatched once, in used-ring order, with the data the device wrote, before its buffer is published again |
| VirtioRx.PumpGoesOn | hal/net/virtio_net.c:131-140 | the pump always finds one of its own descriptors in the used ring |
| VirtioRx.InitInv | hal/net/virtio_net.c:186-190 | the first publications establish the invariant |
| NvmeRw.Drive.BuildPrp | hal/disk/nvme.c:146-159 | a controller that reads the PRP list only where the second entry points finds exactly the pages of the chunk |
| NvmeRw.Drive.Submit | hal/disk/nvme.c:114-136 | the command goes through the queue pair, is executed once, and the status returned is its own, across queue wraps |
| NvmeRw.Drive.Rw | hal/disk/nvme.c:161-193 | a transfer of any number of blocks, chunk by chunk through the queue pair, equals one uninterrupted copy and succeeds exactly if the range is on the media; a failed one has copied a prefix of the blocks |
| NvmeQueue.StepKeeps | hal/disk/nvme.c:114-136 | every step of driver and controller keeps heads, tails and phase bits in step |
| NvmeQueue.AnswersMatch | hal/disk/nvme.c:114-136 | while no poll times out, commands are executed once each in order and every completion consumed answers the command just submitted, across wraps |
| NvmeQueue.LateAnswer | hal/disk/nvme.c:125-135 | after one timeout the next poll can take the late completion |
| NvmeQueue.MatchExactly | hal/disk/nvme.c:114-136 | on a queue of any depth every completion answers the command just submitted, in every run, if and only if polls do not time out |
| NtfsRuns.SRead | fs/ntfs.c:186-193 | a field of any length as a two's-complement little-endian number, on a 64-bit word |
| NtfsRuns.PairsBack | fs/ntfs.c:197-214 | the mapping pairs of any list of runs, holes included, decode to the list |
| NtfsRuns.ReadPiece | fs/ntfs.c:219-231 | exactly the bytes asked for, through whole sectors; succeeds exactly if those fit the scratch buffer and the disk |
| NtfsRuns.ReadRuns | fs/ntfs.c:197-239 | returns exactly the bytes that the expanded cluster map gives for the range, zeros for holes, cut at the end; succeeds if and only if each run's share of the range lies, in whole sectors, on the disk and fits the scratch buffer; pairs behind the range do not matter |
| Crc32.ByteSplit | fs/partition.c:96-103 | eight bits of the register: the low byte decides, the rest moves down |
| Crc32.TableStep | fs/partition.c:103 | one byte by table is eight bits of the reflected CRC |
| Crc32.Table.Build | fs/partition.c:92-101 | the table holds eight bit steps of every byte |
| Crc32.Table.Checksum | fs/partition.c:89-105 | the bit-at-a-time CRC-32 of every byte sequence, whether or not the table was there before |
| Crc32.Residue | fs/partition.c:102-104 | every byte sequence followed by its checksum leaves the register at 0xDEBB20E3 |
| Crc32.CheckValue | fs/partition.c:89-105 | the checksum of the digits 1 to 9 is 0xCBF43926 |
| GptTable.NameBack | fs/partition.c:180-188 | an ASCII name comes back, cut at 35 characters |
| GptTable.NameChars | fs/partition.c:180-188 | a stored name reads as its 16-bit units up to the first zero, with a question mark from 128 on |
| GptTable.CreatedPart | fs/partition.c:333-349 | a created entry is live and lists with the range, size, type and name it was given |
| GptTable.NewEntryBytes | fs/partition.c:338-352 | the 128 bytes of a new entry: type, GUID from slot and start, range, no attributes, name in 16-bit units |
| GptTable.GuidsDiffer | fs/partition.c:341-343 | entries of different slots have different partition GUIDs |
| GptTable.ResizedPart | fs/partition.c:411 | resizing changes the end and nothing else |
| GptTable.List | fs/partition.c:190-211 | the live entries in slot order with range, size, type and name, at most as many as asked for |
| GptDisk.SealedReads | fs/partition.c:115-129 | a header written with its checksum reads back |
| GptDisk.SealedImage | fs/partition.c:276-297 | a header sector byte by byte: signature, revision, size, checksum, places, usable range, GUID, table, zeros behind |
| GptDisk.ProtectiveBytes | fs/partition.c:267-275 | the protective boot sector byte by byte: type 0xEE from sector 1 over the disk, as far as 32 bits go, 55 AA, zeros |
| GptDisk.LostHeader | fs/partition.c:140-159 | a disk made by CanBoot that has lost its primary header is taken for an MBR disk |
| GptDisk.MbrExactly | fs/partition.c:146-158 | a boot sector counts as an MBR exactly if it has its signature and one of the four types is not zero |
| GptDisk.TableBack | fs/partition.c:131-138 | 32 sectors read as a table exactly if they hold it |
| GptDisk.PairConsistent | fs/partition.c:230-259 | from 67 sectors on, writing the pair leaves both headers with the right bytes and checksums pointing at each other and both tables equal, and no other sector changed |
| GptDisk.UsableApart | fs/partition.c:286-287 | the usable range fills exactly the space between the primary structures and their mirror |
| GptDisk.PairOverlaps | fs/partition.c:230-259 | below 67 sectors the mirror overwrites the end of the primary table |
| GptDisk.LargeExactly | fs/partition.c:261-265 | a table survives being written on every disk of n sectors if and only if n is at least 67, although 64 are accepted |
| GptDisk.Disk.WritePair | fs/partition.c:230-259 | checksums, then both tables and both headers |
| GptDisk.Disk.InitGpt | fs/partition.c:261-300 | accepts writable 512-byte disks from 64 sectors; from 67 on the result is a consistent, empty GPT with its protective boot sector, and the sectors between the copies are as they were |
| GptDisk.Disk.Create | fs/partition.c:302-357 | on a GPT disk, or one without partitions, which gets a GPT and its boot sector first: the first free slot gets the range and name, the disk stays consistent, and all sectors outside the copies are as they were; fails without effect exactly on a bad range, a full table, a read-only disk or one that takes no GPT |
| GptDisk.Disk.Delete | fs/partition.c:370-381 | the slot is cleared, the disk stays consistent, and all sectors outside the copies are as they were |
| GptDisk.Disk.Resize | fs/partition.c:397-413 | a live slot gets a new end not before its start, the disk stays consistent, and all sectors outside the copies are as they were |
| GptDisk.Disk.ListParts | fs/partition.c:190-211 | exactly the live slots in slot order |
| GptDisk.CreateLists | fs/partition.c:330-353 | create adds exactly one partition to the listing, at its slot's place |
| GptDisk.DeleteLists | fs/partition.c:370-381 | delete removes exactly one partition from the listing |
| GptDisk.ResizeLists | fs/partition.c:397-413 | resize changes the end of exactly one partition in the listing |
| Line.Choice | hal/display/display.c:106-108 | the two tests take exactly the move to the next point close to the line, ties included |
| Line.CloseBounds | hal/display/display.c:101-109 | a point close to the line overshoots neither axis and ends on both together |
| Line.Draw | hal/display/display.c:91-110 | with a and b the distances in x and y, the loop ends on the target after exactly max(a, b) moves, every point after i steps in x and j in y misses the line by 2 abs(a j - b i) <= max(a, b), with ties decided, and exactly the points of that path inside the frame buffer are painted; every value formed on the way is a 32-bit number if and only if the distances are tame |
| Line.FitsExactly | hal/display/display.c:94-108 | the same for any such path: distances, error term, its double, and the term between its two updates stay inside 32 bits if and only if a closed condition on a, b and their greatest common divisor holds |
| Line.Hit | hal/display/display.c:105-109 | the path misses the line by every multiple of that divisor within half the longer distance, so that the extremes occur |
| Line.AxisTame | hal/display/display.c:106 | a horizontal line stays inside 32 bits exactly below 2^30 moves, a vertical one exactly up to 2^30 |
| Line.ShortTame | hal/display/display.c:91-110 | so does every line of fewer than 2^31 / 3 moves |
| Line.NearDiagonal | hal/display/display.c:106-108 | from (0, 0) to (2000000001, 2000000000) the doubled error term always fits, and the term between its two updates does not |

## Left out
- The interpreter that a trace falls back to is not part of this model: `TraceIr.Interpret` gives the meaning of one
  iteration as the backend's comments describe it, and running off the end of a trace closes the iteration.
- Floating-point arithmetic is a parameter of the machine: only comparison, NaN and sign are given IEEE meaning.
- The code allocator: it is taken to round the estimate up to whole pages of the arena.
- Function traces, unsupported IR instructions, page-table and cache maintenance of the JIT.
- FAT sectors: a cluster is a directory block or a data block, the table is one sequence of 28-bit entries; the mirrored
  copy, the upper four bits of an entry and sector arithmetic appear only in `FatFormat`.
- Disk errors of FAT, NTFS and GPT operations: reads and writes inside the disk succeed.
- FAT root-only helpers, directory listing and long names.
- FatChain.FreeChain: covers walks that stay inside the table; outside it the original reads whatever sector follows.
- FatFormat.Disk.Format: covers volumes below 2^44 - 8192 sectors, where the table size fits 32 bits; a boot sector with
  zero sectors per cluster mounts as None, where the original divides by zero.
- FatFormat.FixedPoint: below 2^44 - 8192 sectors, as for formatting.
- FatFormat.SizeFat: below 2^44 - 8192 sectors, as for formatting.
- FatFormat.TwoMoreEntries: below 2^44 - 8192 sectors, as for formatting.
- FatFormat.OpenExactly: below 2^44 - 8192 sectors, as for formatting.
- TFTP deadlines are nondeterministic steps; the request's file name and the server's error texts are not modelled.
- xHCI: TRB contents other than cycle bit and link type are opaque; registers, contexts and doorbells are not modelled.
- virtio: queue sizes are powers of two up to 64, as the device promises; the state machine models descriptors by id,
  buffer and place.
- VirtioRx.Queue.Pump: stated while the device is quiet; `VirtioPump.System.Pump` covers the device at work.
- NVMe: the controller executes one command at a time; bring-up, doorbell addresses and the admin commands are not modelled.
- NtfsRuns.ReadRuns: of the pairs needed for the request, lengths are not negative and cluster numbers stay below 2^47;
  requests are below 2^31 bytes.
- NTFS records, attributes and index walking.
- MBR partition tables: the GPT operations start from a consistent GPT disk or, for create, from one without partitions.
- GptDisk.Disk.Create: not on disks without partitions of 64 to 66 sectors, where `GptDisk.LargeExactly` says what is wrong.
- Line.Draw: pixel encoding is a parameter; past an overflow, where C has no meaning, the path is that of the integers.
- Networking beyond TFTP, TLS, USB enumeration, HID, audio, console, loaders and the CanDo bindings.
