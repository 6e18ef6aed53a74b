# Verification of the systems-programming repository's algorithmic core

A Dafny 4.11 model of seven parts of the repository, with proofs of what each part is for. `dafny verify dfyconfig.toml`
checks all of it. Nothing here runs the original programs.

**Control-flow graphs** (`Bpf`, `SortedSeq`, `CfgNodes`, `CfgFuncs`, `CfgBlocks`, `CfgEdges`, `CfgBuild`, `CfgPaths`,
`CfgRuns`, `CfgShortfalls`, `CfgBytes`, `CfgDestroy`). bpftool's `cfg.c` splits an eBPF program into functions, the
functions into basic blocks, and links the blocks. The passes are modelled as methods over mutable nodes and lists. The
specification is semantic: instructions step as section 4.3 of RFC 9669 says, and the graph is proved to describe the
runs. Which functions' runs are all paths of the graph, and which paths of the graph are runs, are both decided exactly
(`SimulationIff`, `PathIff`). A heap of live nodes gives ownership: what is built is what is freed, each node once.
`CfgBytes` says the same graph over again on opcode bytes and plain field values, without any of the names the passes
are written with.

What a program must satisfy is stated as `Bpf.WellFormedProgram`: it is not empty, pseudo-call targets (by `off`, as the
code reads them) lie inside it, jumps stay inside their function, and each function ends in an exit or an unconditional
jump. Nothing else is needed to build the graph. That it describes all runs follows from `Bpf.AllReachable` (every
instruction can be reached in its function) and `Bpf.LongJumpsAgree` (a long JA has `off` equal to `imm`).
`UnreachableCodeLosesRun` and `LongJumpLost` give a well-formed program each that lacks one of the two and has a run the
graph misses.

**The XDP load balancer** (`LoadBalancer`, `LoadBalancerBytes`, `Checksum`, `TcpChecksum`, `ByteOrder`, `Bytes`). The
handler rewrites a packet in an array in place. The checksum's one fold and its `~sum % 0xFFFF` are compared with RFC
1071, and the transmitted header is proved to verify as section 3.1 of RFC 791 requires. The rotation is followed over
whole packet sequences. `HandleBytes` settles every byte of the packet that leaves, and the branch taken, by the bytes
of the packet that came.

**xxhash32** (`XxHash`, `Words32`, `Xxh32`, `XxHashMeaning`, `XxHashValues`, `XxHashCollisions`, `Alignment`). The
recursion on machine words is proved equal to the XXH32 of its specification, written independently on natural numbers
modulo 2^32 by position in the input; `Words32` proves what addition, multiplication, shifts and exclusive or of words
are as numbers. Two published values follow. Every step is a permutation in each argument, which gives inequality of
hashes for all lengths and all seeds.

**The semaphore ring** (`SemRing`, `SemLines`). Three processes as a state machine whose steps interleave freely; a
write to the shared buffer takes two steps and is torn in between. `SemLines` follows the lines that are read into the
buffer and the log, over whole runs, and shows that every conversation is one of the runs.

**The record filter** (`Dirents`, `DirentNames`). The loop over length-prefixed records, in place on an array, for both
record layouts (name at offset 19 and at offset 18). `DirentNames` states the result as the list of names a reader of
the buffer gets.

**The hex dump** (`HexDump`, `HexDumpLines`). The printing loop, its layout, every character of it, and a reader of the
hex columns.

**The BTF emitter** (`Utf8`, `Json`, `JsonWriter`, `JsonLayout`, `BtfDump`, `BtfMeaning`). The JSON writer works on
text. Its ghost state is the value under construction, and every call is specified on that value. An independent reader
that follows RFC 8259 closes the round trip: what the dump prints is one JSON document, with the value the type table
stands for. A second reader takes that value apart by field names and finds again what the words of the type section
declare, for every type.

## Where the code falls short

Each of these is a theorem, with the exact condition where there is one.

- The leader pass adds no leader after JA or EXIT, so unreachable code can leave a jump inside a block
  (`StraightLineIff`, `UnreachableCodeHidesJump`) and a run can leave the graph (`SimulationIff`,
  `UnreachableCodeLosesRun`).
- The edge of a JMP32 JA follows `off`, while RFC 9669 takes its displacement from `imm` (`LongJumpIff`,
  `LongJumpLost`).
- The block after an EXIT is linked although no step goes there (`FallEdges`). A tail that is a call gets a second edge
  by its `off`, which leads where no step does unless `off` is zero or no block starts there (`CallEdgesIff`).
- An all-zero header gets checksum 0, not 0xFFFF (`FinishIsRfc`); it cannot occur after the source address is set.
- Header options are outside the checksum (`WholeHeaderVerifiesIff`, `OptionsBreakHeader`).
- The TCP checksum covers the addresses and is not updated (`TcpVerifiesIff`, `RewritingBreaksTcp`).
- A packet sent on to a backend keeps the destination MAC it came with (`TransmitRewrites`): the backend's MAC is
  looked up and not used.
- A backend entry that was never set is not skipped: its client packets leave for 0.0.0.0 (`UnsetEntryIff`).
- A child that fails inside its turn stops the ring (`ProgressIff`).
- Records whose combined length reaches 65536 wrap around (`FilteredIff`, `LongGroupLost`).
- Unsigned enumerators from 2^31 on are printed sign-extended to 64 bits (`EnumPrintedIff`, `LargeEnumeratorPrinted`).
- Bytes of a type name that are not UTF-8, and most control characters, are printed raw, which is not JSON (`Dump`).

## Model

| member | source | states |
|---|---|---|
| Bpf.EveryByte | Assignment_3/q2/bpftool/src/cfg.c:160-163 | every byte is the opcode that its three fields make up |
| Bpf.KindBytes | Assignment_3/q2/bpftool/src/cfg.c:141-163 | a pseudo call is opcode byte 0x85 with source register 1, and nothing else is; JA, CALL, EXIT, the long JA and the conditional jumps are told from the byte alone |
| Bpf.NextBytes | Assignment_3/q2/bpftool/src/cfg.c:181-192 | where control goes from an instruction, by its opcode byte, off and imm, as section 4.3 of RFC 9669 has it |
| Bpf.FuncStartBytes | Assignment_3/q2/bpftool/src/cfg.c:136-148 | functions start at 0 and where an instruction with byte 0x85 and source register 1 leads by off |
| Bpf.ReachedByJump | Assignment_3/q2/bpftool/src/cfg.c:181-192 | an instruction other than the first that lies right after an unconditional jump or an exit is reachable only as a jump target or conditional successor, so it is a leader although the pass adds none there |
| Bpf.StepTarget | Assignment_3/q2/bpftool/src/cfg.c:177-194 | every step that is not one instruction on goes to a leader |
| Bpf.RunStaysInside | Assignment_3/q2/bpftool/src/cfg.c:165-197 | a run of a closed function never leaves its range |
| SortedSeq.InsertedMeaning | Assignment_3/q2/bpftool/src/cfg.c:67-82 | inserting before the first greater element keeps a list strictly increasing and adds exactly one element |
| SortedSeq.IncreasingUnique | Assignment_3/q2/bpftool/src/cfg.c:63-112 | a strictly increasing list is determined by its set of elements |
| SortedSeq.PermutationIsOnto | Assignment_3/q2/bpftool/src/cfg.c:80-83 | distinct indices below the length of the list take every value below it |
| CfgFuncs.CfgAppendFunc | Assignment_3/q2/bpftool/src/cfg.c:63-86 | the function starts become the old ones with insn inserted in order; an existing node is returned as it is, a new one gets the next index and moves no other |
| CfgFuncs.DiscoverFuncs | Assignment_3/q2/bpftool/src/cfg.c:136-148 | after the scan the starts are exactly 0 and the positions i+off+1 of instructions i with opcode byte 0x85 and source register 1, and indices are a permutation of 0..func_num-1 |
| CfgFuncs.SetEnds | Assignment_3/q2/bpftool/src/cfg.c:150-155 | each function ends right before the next one starts and the last one at the end of the array |
| CfgFuncs.CfgPartitionFuncs | Assignment_3/q2/bpftool/src/cfg.c:131-158 | the function list is the partition of the whole array, all its nodes are new, and they are all that was allocated |
| CfgFuncs.RangesOf | Assignment_3/q2/bpftool/src/cfg.c:131-158 | the ranges tile the array without gap or overlap, and each is a function of the program |
| CfgBlocks.FuncAppendBb | Assignment_3/q2/bpftool/src/cfg.c:88-112 | the block heads become the old ones with insn inserted in order; an existing head gives its own node back |
| CfgBlocks.LeaderStep | Assignment_3/q2/bpftool/src/cfg.c:177-194 | the leaders met up to the next instruction are those met before and what that instruction adds |
| CfgBlocks.FuncPartitionBbHead | Assignment_3/q2/bpftool/src/cfg.c:165-197 | the block heads are exactly the leaders of the function, strictly increasing |
| CfgBlocks.FuncPartitionBbTail | Assignment_3/q2/bpftool/src/cfg.c:199-214 | tails end where the next block begins, indices run from 2 without gaps, bb_num counts the special blocks too |
| CfgEdges.FuncInsertDummyBb | Assignment_3/q2/bpftool/src/cfg.c:114-129 | one fresh empty node enters the list at the given place |
| CfgEdges.FuncAddSpecialBb | Assignment_3/q2/bpftool/src/cfg.c:216-231 | the list becomes ENTRY, the old blocks, EXIT |
| CfgEdges.FuncSearchBbWithHead | Assignment_3/q2/bpftool/src/cfg.c:243-254 | the result is the first block with that head, or null when there is none |
| CfgEdges.AddSuccs | Assignment_3/q2/bpftool/src/cfg.c:298-327 | a block gets the edges its last instruction calls for, all of them new nodes |
| CfgEdges.AddEntryExitEdges | Assignment_3/q2/bpftool/src/cfg.c:283-293 | ENTRY has one edge to the first block, EXIT one predecessor edge from the last, and no other block is touched |
| CfgEdges.FuncAddBbEdges | Assignment_3/q2/bpftool/src/cfg.c:277-331 | every block of the list, the special ones included, has exactly its edges, and they are all that was allocated |
| CfgEdges.TailsInside | Assignment_3/q2/bpftool/src/cfg.c:165-214 | when jumps stay inside, every block lies inside its function |
| CfgBuild.FuncPartitionBb | Assignment_3/q2/bpftool/src/cfg.c:233-241 | the two partition passes together lay out the blocks of one function |
| CfgBuild.BuildFunc | Assignment_3/q2/bpftool/src/cfg.c:343-349 | the body of the loop of cfg_build finishes one function's graph out of new nodes |
| CfgBuild.BuildApart | Assignment_3/q2/bpftool/src/cfg.c:343-349 | building one function leaves every finished graph in the list as it was |
| CfgBuild.Build | Assignment_3/q2/bpftool/src/cfg.c:333-352 | for every well-formed program the graph is complete, its nodes are fresh, and they are exactly what was allocated |
| CfgPaths.BlockShape | Assignment_3/q2/bpftool/src/cfg.c:165-214 | blocks are non-empty, start at leaders, are numbered without gaps, and each begins right after the one before it |
| CfgPaths.BlocksDisjoint | Assignment_3/q2/bpftool/src/cfg.c:199-214 | every instruction of a function is in exactly one block |
| CfgPaths.HeadIffLeader | Assignment_3/q2/bpftool/src/cfg.c:165-197 | an instruction heads its block if and only if it is the start, a jump target or the successor of a conditional jump |
| CfgPaths.TailIffLeaderNext | Assignment_3/q2/bpftool/src/cfg.c:199-214 | an instruction ends its block if and only if the function ends there or a leader follows |
| CfgPaths.HeadsDetermined | Assignment_3/q2/bpftool/src/cfg.c:88-112 | any two layouts of the same range have the same heads, whatever order the targets were met in |
| CfgPaths.FoundIff | Assignment_3/q2/bpftool/src/cfg.c:243-254 | the search for a head finds the block of a leader and nothing else |
| CfgPaths.JaEdges | Assignment_3/q2/bpftool/src/cfg.c:310-315 | a block ending in an unconditional jump has exactly one successor, not null, headed by insn+off+1 |
| CfgPaths.CondEdges | Assignment_3/q2/bpftool/src/cfg.c:318-327 | a block ending in a conditional jump has exactly the fallthrough block and the block headed by insn+off+1 |
| CfgPaths.FallEdges | Assignment_3/q2/bpftool/src/cfg.c:304-309 | a block ending in an exit or in no jump has exactly one successor, the next block in list order |
| CfgPaths.CallEdges | Assignment_3/q2/bpftool/src/cfg.c:318-327 | a block ending in a call takes the conditional path: its second edge goes to the block headed by insn+off+1, and is null exactly when there is none |
| CfgPaths.CallEdgesIff | Assignment_3/q2/bpftool/src/cfg.c:318-327 | the edges of a call block lead only to where the call returns if and only if off is zero or insn+off+1 is no leader |
| CfgPaths.EdgesTold | Assignment_3/q2/bpftool/src/cfg.c:298-327 | an edge leads from a block to a leader exactly when the block's last instruction says so, for every kind of instruction |
| CfgPaths.StraightLineIff | Assignment_3/q2/bpftool/src/cfg.c:181-192 | every jump and exit ends its block if and only if each JA and EXIT is followed by a leader or by the end |
| CfgPaths.StraightLine | Assignment_3/q2/bpftool/src/cfg.c:165-214 | where every instruction is reachable, every jump and exit ends its block |
| CfgPaths.StepIsEdge | Assignment_3/q2/bpftool/src/cfg.c:277-331 | a step stays in its block one instruction on, or goes from a tail to a head along a recorded edge |
| CfgRuns.Simulation | Assignment_3/q2/bpftool/src/cfg.c:165-331 | where each JA and EXIT ends its block and long jumps say the same in off, every finite run of a function, seen as blocks, is a path from ENTRY along recorded edges that ends in the run's last block |
| CfgRuns.SimulationIff | Assignment_3/q2/bpftool/src/cfg.c:165-331 | without those conditions: all runs are described if and only if each JA that a run can come to goes where the last instruction of its block leads as well, or stays in the block |
| CfgRuns.ProgramSimulationIff | Assignment_3/q2/bpftool/src/cfg.c:333-352 | the same for every function of the graph cfg_build makes of a well-formed program |
| CfgRuns.EdgesExact | Assignment_3/q2/bpftool/src/cfg.c:298-327 | away from exits, and from calls whose second edge is stray, the edges of a block lead exactly where a step from its tail can go |
| CfgRuns.PathIsRun | Assignment_3/q2/bpftool/src/cfg.c:277-331 | every path from ENTRY that leaves no exit, and leaves each call to where it returns, is what some run looks like |
| CfgRuns.PathIff | Assignment_3/q2/bpftool/src/cfg.c:277-331 | and only those are: a path is a run seen as blocks if and only if it leaves every block as a step does |
| CfgRuns.HarmlessPathIsPlain | Assignment_3/q2/bpftool/src/cfg.c:277-331 | where calls have off zero or no block at insn+off+1, every path that leaves no exit is such a path |
| CfgRuns.ProgramSimulation | Assignment_3/q2/bpftool/src/cfg.c:333-352 | the simulation holds for every function of the graph cfg_build makes of a well-formed, fully reachable program |
| CfgShortfalls.LongJumpIff | Assignment_3/q2/bpftool/src/cfg.c:310-312 | the edge of a JA goes where RFC 9669 sends it, except for the long form (displacement in imm), where it does if and only if off equals imm |
| CfgShortfalls.LongJumpLost | Assignment_3/q2/bpftool/src/cfg.c:310-312 | a well-formed three-instruction program with a long JA and a run the graph does not describe |
| CfgShortfalls.UnreachableCodeHidesJump | Assignment_3/q2/bpftool/src/cfg.c:181-192 | a well-formed three-instruction program with unreachable code whose graph has a jump in the middle of a block |
| CfgShortfalls.UnreachableCodeLosesRun | Assignment_3/q2/bpftool/src/cfg.c:181-192 | a well-formed five-instruction program with unreachable code and a run the graph does not describe |
| CfgBytes.LayoutBytes | Assignment_3/q2/bpftool/src/cfg.c:199-231 | ENTRY has index 0, EXIT 1, the others count from 2 in list order, start in increasing order, and reach to the next one or the end |
| CfgBytes.HeadBytes | Assignment_3/q2/bpftool/src/cfg.c:165-197 | a block starts at x if and only if the function does, or an instruction of class 5 or 6 and operation other than 8 and 9 leads there by off, or stands right before x with an operation other than 0 |
| CfgBytes.EdgeBytes | Assignment_3/q2/bpftool/src/cfg.c:298-327 | the number of edges of a block, their flags, their targets and their order, decided by the opcode byte of its last instruction |
| CfgBytes.SpecialEdges | Assignment_3/q2/bpftool/src/cfg.c:283-293 | the one edge of ENTRY and the one predecessor edge of EXIT, with source, target and flags |
| CfgBytes.ClosedBytes | Assignment_3/q2/bpftool/src/cfg.c:165-197 | what the build asks of a function, as a condition on opcode bytes and off |
| CfgBytes.CallerPartition | Assignment_3/q2/bpftool/src/cfg.c:131-158 | call (0x85, source register 1, off 1); exit; exit is partitioned into 0..1 and 2..2 |
| CfgBytes.CallerWellFormed | Assignment_3/q2/bpftool/src/cfg.c:141-145 | and that program meets what the build asks of it |
| CfgDestroy.GraphOwned | Assignment_3/q2/bpftool/src/cfg.c:277-331 | in a finished graph every edge is linked on exactly one list |
| CfgDestroy.DestroyBlock | Assignment_3/q2/bpftool/src/cfg.c:361-376 | a block and all its edges are freed, each once |
| CfgDestroy.DestroyFunc | Assignment_3/q2/bpftool/src/cfg.c:358-380 | one function's nodes are freed, each once, and the rest of the graph is untouched |
| CfgDestroy.BuiltIsDestroyable | Assignment_3/q2/bpftool/src/cfg.c:333-381 | what cfg_build leaves is what cfg_destroy needs: every node live and on one list |
| CfgDestroy.Destroy | Assignment_3/q2/bpftool/src/cfg.c:354-381 | the list is empty afterwards and exactly the nodes of the graph have been freed; freeing a node twice is ruled out |
| CfgDestroy.BuildAndDestroy | Assignment_3/q2/bpftool/src/cfg.c:475-488 | building and destroying leaves the set of live nodes as it was |
| ByteOrder.Swab16Reverses | Assignment_3/q2/.output/bpf/bpf_endian.h:13-17 | the 16-bit swap reverses the bytes |
| ByteOrder.Swab32Reverses | Assignment_3/q2/.output/bpf/bpf_endian.h:19-23 | the 32-bit swap reverses the bytes |
| ByteOrder.Swab64Reverses | Assignment_3/q2/.output/bpf/bpf_endian.h:25-33 | the 64-bit swap reverses the bytes |
| ByteOrder.SwabInvolutions | Assignment_3/q2/.output/bpf/bpf_endian.h:13-33 | each swap undoes itself |
| ByteOrder.StoredBytes | Assignment_3/q2/.output/bpf/bpf_endian.h:13-33 | the bytes of a word are its digits to base 256, the lowest first |
| ByteOrder.SwappedLiterals | Assignment_3/q2/.output/bpf/bpf_endian.h:13-33 | one swapped word of each width |
| Checksum.FinishIsRfc | Assignment_3/q3/load_balancer.bpf.c:121-128 | the single fold and the remainder by 0xFFFF in 64 bits give the fully folded checksum of RFC 1071 if and only if the sum is not zero |
| Checksum.StoredChecksumVerifies | Assignment_3/q3/load_balancer.bpf.c:107-129 | storing the result makes the one's-complement sum 0xFFFF if and only if the other words are not all zero |
| Checksum.ByteOrderIndependence | Assignment_3/q3/load_balancer.bpf.c:112-128 | section 2(B) of RFC 1071: swapped words give the swapped checksum |
| LoadBalancer.AddressConstants | Assignment_3/q3/load_balancer.bpf.c:99-103 | the address constants are the network-order bytes of the two IPv4 addresses |
| LoadBalancer.XdpProgram.SumHeader | Assignment_3/q3/load_balancer.bpf.c:112-119 | the loop adds up the ten header words as loaded |
| LoadBalancer.XdpProgram.IphCsum | Assignment_3/q3/load_balancer.bpf.c:107-129 | the check field is cleared, and the result is the finished sum of the header words |
| LoadBalancer.XdpProgram.IsTcp | Assignment_3/q3/load_balancer.bpf.c:133-182 | true exactly for packets with whole Ethernet and IP headers, type IPv4 and protocol TCP |
| LoadBalancer.XdpProgram.HandleXdp | Assignment_3/q3/load_balancer.bpf.c:197-282 | the packet in the buffer, the rotation and the verdict are those of Handle, for every packet of any length; every access is inside the buffer |
| LoadBalancer.PassLeavesAlone | Assignment_3/q3/load_balancer.bpf.c:216-236 | XDP_PASS leaves packet and rotation untouched, and happens exactly for unforwardable packets |
| LoadBalancer.TransmitRewrites | Assignment_3/q3/load_balancer.bpf.c:246-268 | XDP_TX changes only the MAC, IP address and checksum fields; packets to a backend keep their destination MAC |
| LoadBalancer.TransmitVerifies | Assignment_3/q3/load_balancer.bpf.c:267-270 | the first twenty header bytes of every transmitted packet verify |
| LoadBalancer.WholeHeaderVerifiesIff | Assignment_3/q3/load_balancer.bpf.c:225-236 | a header with options verifies if and only if its option words sum to a multiple of 0xFFFF |
| LoadBalancer.NetworkOrderSameBytes | Assignment_3/q3/load_balancer.bpf.c:112-128 | little-endian loads put the same two bytes in the header as a network-order computation |
| LoadBalancer.RotationCounts | Assignment_3/q3/load_balancer.bpf.c:246-260 | over any packet sequence the rotation is the number of forwarded client packets modulo 2 |
| LoadBalancer.ClientPacketTarget | Assignment_3/q3/load_balancer.bpf.c:251-258 | the k-th forwarded client packet goes to backend k mod 2, whatever other traffic there was |
| LoadBalancer.FairShare | Assignment_3/q3/load_balancer.bpf.c:251-258 | the two backends' counts add up to the client packets and differ by at most one, the first never behind |
| LoadBalancer.LookupFinds | Assignment_3/q3/load_balancer.bpf.c:92-97 | the lookup of a key below 2 in the two-entry array map is never null, so the test after it is never taken |
| LoadBalancer.UnsetEntryIff | Assignment_3/q3/load_balancer.bpf.c:251-258 | the k-th client packet leaves for 0.0.0.0 if and only if the address of entry k mod 2 is zero, as in an entry that was never set |
| LoadBalancer.BranchBytes | Assignment_3/q3/load_balancer.bpf.c:216-246 | which packets pass, and which count as the client's, by bytes 12 to 14, 23 and 26 to 29 |
| LoadBalancerBytes.HandleBytes | Assignment_3/q3/load_balancer.bpf.c:197-282 | verdict, rotation and every byte of the packet after a call, told from the bytes of the packet before it: what passes, what goes to the backend whose turn it is, what goes to 10.0.0.1 |
| LoadBalancerBytes.SentToUnique | Assignment_3/q3/load_balancer.bpf.c:263-270 | those conditions leave one packet only: the checksum field is the one number below 0xFFFF that makes the ten header words sum to a positive multiple of 0xFFFF |
| LoadBalancerBytes.HeaderSumMeaning | Assignment_3/q3/load_balancer.bpf.c:112-119 | the sum of the loop is that of bytes 14 to 33, taken in pairs, the low byte first |
| LoadBalancerBytes.AddressSumBytes | Assignment_3/q3/load_balancer.bpf.c:246-268 | the address part of the TCP pseudo-header is the sum of bytes 26 to 33, taken in pairs, the high byte first |
| TcpChecksum.TcpVerifiesIff | Assignment_3/q3/load_balancer.bpf.c:246-270 | a TCP checksum that verified on arrival (section 3.1 of RFC 9293) still verifies on departure if and only if the old and new address words have equal sums modulo 0xFFFF |
| TcpChecksum.OptionsBreakHeader | Assignment_3/q3/load_balancer.bpf.c:112-119 | a packet with one option word whose transmitted header does not verify |
| TcpChecksum.RewritingBreaksTcp | Assignment_3/q3/load_balancer.bpf.c:263-267 | a packet whose TCP checksum verified and no longer does |
| XxHash.StripesFrom | Assignment_3/q3/load_balancer_helper.h:43-47 | the stripe recursion computes the four accumulators of the XXH32 algorithm |
| XxHash.FinalizeIsConsume | Assignment_3/q3/load_balancer_helper.h:36-41 | the finalize recursion takes the remaining words and then the remaining bytes, each once, and the avalanche last |
| XxHash.RefinesReference | Assignment_3/q3/load_balancer_helper.h:36-55 | the recursion, which passes on pointers and remaining lengths, equals the same steps taken by position in the input |
| XxHashMeaning.HashMeaning | Assignment_3/q3/load_balancer_helper.h:10-55 | for every input and every seed the hash, as a number, is the XXH32 of the specification: own primes, rotations, loads, accumulators and avalanche, on natural numbers modulo 2^32 |
| XxHashMeaning.Endian32Meaning | Assignment_3/q3/load_balancer_helper.h:26-29 | a load is v[0] + 256 v[1] + 65536 v[2] + 16777216 v[3] |
| XxHashMeaning.RoundMeaning | Assignment_3/q3/load_balancer_helper.h:14-16 | a round adds the lane times the second prime, rotates left by 13 and multiplies by the first prime, modulo 2^32 |
| XxHashMeaning.AvalancheMeaning | Assignment_3/q3/load_balancer_helper.h:18-24 | the avalanche is the three exclusive ors with shifts by 15, 13 and 16 and the two products of the specification |
| XxHashValues.Sentence | Assignment_3/q3/load_balancer_helper.h:53-55 | the published value of a text of 39 bytes, which takes two stripes, a word and three bytes |
| XxHashValues.PublishedValues | Assignment_3/q3/load_balancer_helper.h:53-55 | the published values of that text and of the empty input |
| Words32.Product | Assignment_3/q3/load_balancer_helper.h:14-16 | multiplication of machine words is multiplication modulo 2^32 |
| Words32.XorValue | Assignment_3/q3/load_balancer_helper.h:18-20 | exclusive or of machine words is that of their binary digits |
| XxHashCollisions.RoundInjective | Assignment_3/q3/load_balancer_helper.h:14-16 | a round is a permutation in each of its arguments |
| XxHashCollisions.WordStepInjective | Assignment_3/q3/load_balancer_helper.h:38-38 | so is the four-byte step of finalize |
| XxHashCollisions.ByteStepInjective | Assignment_3/q3/load_balancer_helper.h:39-39 | and the one-byte step, in the hash and in the byte |
| XxHashCollisions.AvalancheInjective | Assignment_3/q3/load_balancer_helper.h:18-24 | the avalanche loses nothing |
| XxHashCollisions.MergeInjective | Assignment_3/q3/load_balancer_helper.h:46-46 | merging tells two lane vectors apart that differ in one lane |
| XxHashCollisions.Endian32Injective | Assignment_3/q3/load_balancer_helper.h:26-29 | different four-byte groups load as different words |
| XxHashCollisions.OneWordChangesHash | Assignment_3/q3/load_balancer_helper.h:10-55 | messages of equal length that differ in one aligned word have different hashes, for every length and seed |
| XxHashCollisions.TrailingByteChangesHash | Assignment_3/q3/load_balancer_helper.h:36-55 | so do messages that differ in one byte after the last whole word |
| XxHashCollisions.OneByteChangesHash | Assignment_3/q3/load_balancer_helper.h:10-55 | and messages that differ in any single byte |
| XxHashCollisions.FourBytesNeverCollide | Assignment_3/q3/load_balancer_helper.h:36-55 | four-byte messages have equal hashes if and only if they are equal |
| SemRing.StepInv | Assignment_0/q1/parent_pgm.c:165-187 | every step of every process keeps the ring invariant: one holder, everyone else idle, the log current up to the newest message |
| SemRing.TokenConservation | Assignment_0/q1/parent_pgm.c:85-88 | the semaphores and the processes between wait and post add up to 1, so at most one process is inside |
| SemRing.ExactlyOnceLog | Assignment_0/q1/child_pgm.c:118-156 | the log is a prefix of the messages written, at most one short, and the authors take turns |
| SemRing.NoTornRead | Assignment_0/q1/child_pgm.c:128-146 | whoever reads finds the newest message whole and not yet logged; whoever writes overwrites a message that is in the log |
| SemRing.DoneMeansLogged | Assignment_0/q1/parent_pgm.c:180-191 | when the parent has left its loop everything is logged and no child is inside |
| SemRing.ProgressIff | Assignment_0/q1/child_pgm.c:132-142 | some step is possible if and only if the ring has not been taken down and no child has given up inside |
| SemRing.HistoryGrows | Assignment_0/q1/parent_pgm.c:165-187 | along a run nothing written or logged is taken back |
| SemRing.RunTheorem | Assignment_0/q1/parent_pgm.c:165-191 | in every run from the initial state, at every moment: one token, turns kept, a message in the log by the time the next is written, and all of them there when the parent is done |
| SemLines.LinesWritten | Assignment_0/q1/child_pgm.c:138-146 | along every run what is written, with at most one message still in hand, is in order the lines that were read, each behind "Parent: ", "ChildOne: " or "ChildTwo: " |
| SemLines.LinesLogged | Assignment_0/q1/parent_pgm.c:165-187 | the output file holds these messages in order, at most the newest missing |
| SemLines.DoneIff | Assignment_0/q1/parent_pgm.c:180-181 | the parent has left its loop if and only if it has read the line TERMINATE in turn |
| SemLines.EveryConversation | Assignment_0/q1/parent_pgm.c:156-187 | every sequence of lines, the parent's later ones other than TERMINATE, is what some run writes |
| Dirents.ContainsMeaning | Assignment_1/q5/newer_syscall_interception.c:234-234 | strstr finds the needle exactly when it occurs at some position |
| Dirents.SetReclen | Assignment_1/q5/newer_syscall_interception.c:244-244 | the 16-bit length field is replaced and no other byte changes |
| Dirents.HideEntries | Assignment_1/q5/newer_syscall_interception.c:225-251 | the loop, in place: each visible record's length becomes the distance to the next visible one in 16 bits, and every other byte of the buffer stays |
| Dirents.FilteredIff | Assignment_1/q5/newer_syscall_interception.c:225-251 | a reader of the result meets exactly the visible records, in order and up to the end, if and only if each visible record and the hidden ones after it fit 16 bits |
| Dirents.FakeGetdents64 | Assignment_1/q5/newer_syscall_interception.c:225-251 | so it is for records with the name at offset 19 |
| Dirents.FakeGetdents | Assignment_1/q5/newer_syscall_interception.c:282-308 | and for records with the name at offset 18 |
| Dirents.LongGroupLost | Assignment_1/q5/newer_syscall_interception.c:244-244 | two records of 40000 and 30000 bytes after which a reader is led astray |
| Dirents.SmallBuffersFiltered | Assignment_1/q5/newer_syscall_interception.c:282-308 | every buffer below 65536 bytes is filtered, with the old names, none of them hidden |
| Dirents.NamesIntact | Assignment_1/q5/newer_syscall_interception.c:225-251 | every visible record keeps its name |
| DirentNames.HiddenBytes | Assignment_1/q5/newer_syscall_interception.c:234-234 | a record is hidden if and only if the bytes of "secret" stand in the buffer behind the start of its name with no zero byte before them |
| DirentNames.CStringMeaning | Assignment_1/q5/newer_syscall_interception.c:234-234 | the name of a record is the bytes up to the first zero |
| DirentNames.FilteredNames | Assignment_1/q5/newer_syscall_interception.c:225-251 | a reader of the result lists the names it listed before, in order, without those that contain "secret" |
| DirentNames.ListFiltered64 | Assignment_1/q5/newer_syscall_interception.c:225-251 | so it is after the loop on every buffer below 65536 bytes, with lengths at bytes 16 and 17 and names at byte 19 |
| DirentNames.ListFiltered | Assignment_1/q5/newer_syscall_interception.c:282-308 | and with names at byte 18 |
| HexDump.Sniffer.PrintText | Assignment_3/packet_sniffer.c:254-260 | codes 32 to 128 are printed as they are and the others as a dot |
| HexDump.Sniffer.PrintPadding | Assignment_3/packet_sniffer.c:269-269 | three spaces for each missing column |
| HexDump.Sniffer.PrintRowBreak | Assignment_3/packet_sniffer.c:251-264 | whatever row the bytes so far left open, afterwards the layout stands with the row of the current byte open: a full row has been ended late and a new one has its margin |
| HexDump.Sniffer.PrintByte | Assignment_3/packet_sniffer.c:265-279 | the byte joins the open row of the layout, and the last byte's row is ended |
| HexDump.Sniffer.PrintData | Assignment_3/packet_sniffer.c:246-281 | for every size the log grows by exactly the row-by-row layout |
| HexDump.BreakOpensRow | Assignment_3/packet_sniffer.c:251-264 | flushing the finished row late leaves the layout's text up to the current byte |
| HexDump.ByteExtendsRow | Assignment_3/packet_sniffer.c:265-279 | the byte and, at the end, padding and text complete the layout's text |
| HexDump.DecodeLayout | Assignment_3/packet_sniffer.c:246-281 | the hex columns alone give every byte back, for every length |
| HexDump.LayoutInjective | Assignment_3/packet_sniffer.c:246-281 | no two inputs print alike |
| HexDumpLines.RowCharacters | Assignment_3/packet_sniffer.c:246-281 | what stands at each place of a row: margin, hex digits, blanks up to column 60, text, line end |
| HexDumpLines.LayoutCharacters | Assignment_3/packet_sniffer.c:246-281 | every character of the dump of any input, by line and column, and its length |
| Json.ReadEscaped | Assignment_3/q2/bpftool/src/json_writer.c:57-87 | an escaped string reads back as itself if and only if it is UTF-8 and holds no control character but the five that are escaped |
| Json.ReadText | Assignment_3/q2/bpftool/src/json_writer.c:126-155 | a value reads back as itself, the text after it left over, exactly when all its strings do |
| Json.DocumentReadsBack | Assignment_3/q2/bpftool/src/json_writer.c:103-112 | the whole text, final line end included, is one RFC 8259 document with that value, pretty or not |
| Utf8.ValidIff | Assignment_3/q2/bpftool/src/json_writer.c:82-84 | a string is accepted as UTF-8 if and only if it is the encoding of some sequence of characters, as section 3 of RFC 3629 encodes them |
| JsonWriter.Writer.EndLine | Assignment_3/q2/bpftool/src/json_writer.c:29-44 | in pretty mode a line end and four spaces for each open container, otherwise nothing |
| JsonWriter.Writer.Name | Assignment_3/q2/bpftool/src/json_writer.c:147-156 | the open object waits for the value of this name, and the text is that of the value under construction |
| JsonWriter.Writer.Begin | Assignment_3/q2/bpftool/src/json_writer.c:126-132 | a new open container, with the comma that was due |
| JsonWriter.Writer.End | Assignment_3/q2/bpftool/src/json_writer.c:134-143 | the open container becomes a value of its parent |
| JsonWriter.Writer.Scalar | Assignment_3/q2/bpftool/src/json_writer.c:198-202 | the value is put into the open container |
| JsonWriter.Writer.Field | Assignment_3/q2/bpftool/src/json_writer.c:247-251 | the open object gains one member |
| JsonWriter.PutTopText | Assignment_3/q2/bpftool/src/json_writer.c:47-52 | putting a value into the open container is appending the due comma and the value's text |
| JsonWriter.CloseTopText | Assignment_3/q2/bpftool/src/json_writer.c:134-143 | closing a container turns the text so far into that of its parent with the finished value |
| JsonLayout.IndentMeaning | Assignment_3/q2/bpftool/src/json_writer.c:29-34 | indentation is four spaces a level |
| JsonLayout.LineEnd | Assignment_3/q2/bpftool/src/json_writer.c:36-44 | in pretty mode a line end comes before the indentation, in compact mode there is neither |
| JsonLayout.CompactSample | Assignment_3/q2/bpftool/src/json_writer.c:126-155 | the compact text of an object with an array, to the character |
| JsonLayout.PrettySample | Assignment_3/q2/bpftool/src/json_writer.c:126-155 | its pretty text, to the character: which tokens get a line of their own and which do not |
| JsonLayout.Strings | Assignment_3/q2/bpftool/src/json_writer.c:57-87 | the text of a string with escapes, to the character |
| BtfDump.DumpStructMember | Assignment_3/q2/bpftool/src/btf.c:173-203 | the object of one struct member, with its bit-field size only when it has one |
| BtfDump.DumpList | Assignment_3/q2/bpftool/src/btf.c:171-206 | the open object gains the list with exactly vlen entries |
| BtfDump.DumpType | Assignment_3/q2/bpftool/src/btf.c:102-416 | the value under construction gains exactly the object that describes the type, for every kind and every vlen |
| BtfDump.DumpRaw | Assignment_3/q2/bpftool/src/btf.c:418-455 | the stream gains one value, the object with the array of all dumped types, from roots or from the table's own ids |
| BtfDump.Dump | Assignment_3/q2/bpftool/src/main.c:486-542 | the text of a whole run reads back as the value describing the table if and only if every printed name is UTF-8 without raw control characters; otherwise it is no JSON document |
| BtfDump.DumpReadsBack | Assignment_3/q2/bpftool/src/btf.c:418-455 | the same of the stream's text, compact or pretty |
| BtfDump.OneElementPerType | Assignment_3/q2/bpftool/src/btf.c:430-448 | the array has one element for each dumped id, in order, and it is that type's |
| BtfDump.DumpCoversTable | Assignment_3/q2/bpftool/src/btf.c:435-447 | without roots the ids are those past the base table, all of them |
| BtfDump.ListLength | Assignment_3/q2/bpftool/src/btf.c:164-206 | the vlen printed is the number of entries printed |
| BtfDump.EnumPrintedIff | Assignment_3/q2/bpftool/src/btf.c:228-231 | an enumerator is printed with the value it stands for if and only if the type is signed or the value is below 2^31 |
| BtfDump.LargeEnumeratorPrinted | Assignment_3/q2/bpftool/src/btf.c:228-231 | the unsigned enumerator 2^31 is printed as 0xFFFFFFFF80000000 |
| BtfDump.TypeNamesUnique | Assignment_3/q2/bpftool/src/btf.c:102-416 | no object names a member twice |
| BtfDump.TypeClean | Assignment_3/q2/bpftool/src/btf.c:90-116 | a type's object is clean exactly when the names taken from the string table are |
| BtfMeaning.SlotRead | Assignment_3/q2/bpftool/src/btf.c:173-203 | the fields of a struct member, found by name, give its name, type, bit offset and bit-field size, with or without the kind flag |
| BtfMeaning.ConstantRead | Assignment_3/q2/bpftool/src/btf.c:224-237 | a 32-bit enumerator's name and value can be read back, signed or not; an unsigned one is the printed number modulo 2^32 |
| BtfMeaning.Constant64Read | Assignment_3/q2/bpftool/src/btf.c:268-281 | and a 64-bit one, made of its two words |
| BtfMeaning.ParamRead | Assignment_3/q2/bpftool/src/btf.c:322-331 | a parameter's name and type |
| BtfMeaning.PlacedRead | Assignment_3/q2/bpftool/src/btf.c:366-372 | a section variable's type, offset and size |
| BtfMeaning.PlainRead | Assignment_3/q2/bpftool/src/btf.c:119-409 | the same for every kind that prints no list: each field holds the word, or the bits of it, that its name says; encodings and linkages are told apart |
| BtfMeaning.DeclRead | Assignment_3/q2/bpftool/src/btf.c:102-416 | whatever its kind, a type's printed object says by its field names exactly what the type's words declare |
| BtfMeaning.FieldOrder | Assignment_3/q2/bpftool/src/btf.c:108-409 | the names of a type's fields in the order they are printed in, for every kind |
| BtfMeaning.CompleteWords | Assignment_3/q2/bpftool/src/btf.c:119-409 | what is asked of a type table, in words: one for INT, VAR and DECL_TAG, three for ARRAY, two or three for each list entry |
| BtfMeaning.DumpLossless | Assignment_3/q2/bpftool/src/btf.c:418-455 | from the text of a dump with clean names every dumped type's declaration can be read, in order, for the roots or else for every type past the base table: nothing is lost |
| BtfMeaning.DumpAndRead | Assignment_3/q2/bpftool/src/main.c:486-542 | so it is for the text the dump command prints |

## Left out

- Drawing the graph (`draw_*`, `cfg_dump`) and every out-of-memory path: output only, and a failed build returns without
  teardown.
- Intrusive list pointers: a list is a `seq` field of its owner that the methods reassign, and a node's link is the
  field `l`, which names the owner. Pointer surgery inside the list macros is not modelled.
- Instruction pointers are positions in the array, and the opcode byte is kept as its three fields (operation, source
  bit, class), which `Bpf.ByteFields` gets from the byte.
- The second slot of a 16-byte immediate load is a step of its own that falls through.
- CALL and EXIT with class JMP32, which RFC 9669 does not define, step like their 64-bit forms, as `cfg.c` treats them.
- `bpf_printk`, ring buffers, libbpf loading and updates of the backends map while packets are handled: foreign calls.
- Races on `round_robin` between CPUs: packets are handled one at a time.
- The byte-array view of a packet replaces pointer casts; alignment of the header is not modelled.
- xxhash32 is stated for inputs below 2^32 bytes, all that its `unsigned int len` can describe; reads past the end of a
  shorter buffer cannot be expressed.
- Semaphore and process set-up in the ring: forking, pipes, attaching memory. Semaphores left over from an earlier run
  (`sem_open` without `O_EXCL` keeps their value) are excluded by starting at zero.
- Line lengths in the ring: lines are at most 99 characters and the buffers hold them, so truncation is not modelled. A
  parent's failed read counts as an arbitrary line.
- The branch of the record loop for a match at the first record: it compares a length with a pointer. `HideEntries`
  requires that the first record stays visible and that the buffer is a chain of whole records with terminated names.
- Copying between user and kernel memory around that loop, and the interception itself.
- Text-mode BTF output and the other `jsonw_*` calls (floats, booleans, null).
- libbpf's parsing of BTF: a type table is given with all words each kind needs, and string offsets as a map.
- BtfMeaning.DeclRead: encodings and linkages that the dumper has no name for are not told apart, and BTF kinds it does
  not know count as `UNKNOWN`.
- The read-back grammar leaves out what the writer never prints: fractions, exponents, `true`, `false`, `null` and
  `\u` escapes.
- `EINTR`, partial writes and output errors of the printers.
- Container code, kernel-module plumbing, seccomp filters, the character device and the `/proc` readers: system calls
  with little logic of their own.
