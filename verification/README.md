# Verification of the netlist analyzer, the compile driver and their data structures

The project models nine parts of the PyBuda sources that carry an algorithm, a protocol or a format of their own, and
proves what they promise. `dafny verify dfyconfig.toml` checks all of it.

| files | part of the system |
|---|---|
| `Incidence`, `PipeGraph`, `EpochBuffers`, `TraceOrder`, `PipeTrace`, `EpochTrace` | buffers and pipes of a temporal epoch, and the worklist that turns them into a packet trace |
| `ArrayLayout`, `AccessPath`, `AccessSafety`, `AccessText`, `AccessOutcome`, `AccessTypedefs`, `AccessLaws` | the evaluator of C access paths over DWARF types |
| `WaitQueue`, `BoundedQueue`, `QueueCalls` | the blocking queue, one step for each critical action of each thread |
| `Feeder`, `FeederRuns` | the token protocol between the scheduling thread and the feeder thread |
| `CompileStages`, `CompileRuns` | the compile driver with its two back edges |
| `FanIn` | the fan-in computation with its depth limit |
| `LittleEndian`, `DataArray`, `Netrace`, `NetraceReturn`, `NetraceLayout`, `NetraceFile` | number arrays and the netrace file format |
| `Adam`, `AdamCorrection`, `AdamReference` | the Adam operation graph and the in-place reference optimizer |
| `SmallVector`, `Harvesting`, `HarvestMaps` | the small vector and the row maps of harvested devices |
| `Wrappers` | what several modules share |

Objects whose methods update their fields are classes; each method is proved against a function or relation on values,
and the theorems are about those. For the epoch the value is a `Net`: three relations, each kept as two tables.

## Results about the program

Some things hold only under a condition. Each entry names the member that proves the exact condition.

- Fan-in: the depth limit of 400 is harmless for all layouts if and only if there are at most 401 distinct pipe inputs
  (`FanIn.LimitHarmlessIff`).
- Queue: a bounded queue can lose a wakeup for every positive bound, since pushers and poppers share one condition
  variable and pops do not notify; wakeups are safe if and only if `max_size` is zero
  (`BoundedQueue.NoLostWakeupIffMaxSizeZero`).
- Access paths: selecting several array elements and then following a pointer (`*a[0]` for `int *a[1][2]`) multiplies
  the size of the pointee by the number of elements, so the read overruns the designated object
  (`AccessOutcome.OverrunsIff`, `AccessOutcome.PartialIndexOverruns`). Negative indices pass the bounds check; a negative
  first index always leads out, and in general the range is inside if and only if normalizing the indices carries nothing
  over (`ArrayLayout.InsideIffNoCarry`, `ArrayLayout.InsideIffLeadingSign`). A member of an unnamed union resolves to the
  union as a whole and never to the member, and a member more than one unnamed level down is not found at all
  (`AccessOutcome.StepArrivesIffNamed`, `AccessOutcome.UnionMemberYieldsUnion`, `AccessOutcome.DeepMemberIsMissed`).
- Netrace: the reader never looks at what is left of the file. It gives a dumped trace back if and only if names, notes and
  counts are right and the notes length is the encoded length plus one, or it is larger and nothing follows the notes, or it
  misses the terminator and all regions and packets are zero (`NetraceReturn.FileGivesBackIff`,
  `NetraceReturn.MissedTerminatorExample`); only in the first two cases is the file read to its end
  (`Netrace.FileRoundTripIff`). With any bytes behind it only the exact length will do (`Netrace.RoundTripIffFaithful`).
  Traces made with `add_packet` record length zero for their empty notes and write the terminator nevertheless; what is
  read back is never the trace (`NetraceFile.BuiltTraceIsNotReadBack`). The comment in the source gives the right rule; the
  constructor does not follow it.
- Compile driver: the bound 14 + 2 * 19 + 4 * L on the stages of one run is attained (`CompileStages.BoundIsAttained`).
  Across the loading loop of the device a recompile can cost five stages, and the bound with 5 * L is attained too
  (`CompileStages.LoadingBoundIsAttained`).
- Buffers: a repeated id replaces the buffer that had it; the epoch owns all replicas of its buffers if and only if no base
  buffer that stays has lost one (`EpochBuffers.FlatIffReplicasSurvive`, `EpochBuffers.ReplicaIsReplaced`).
- Number arrays: regrouping keeps the number for positive widths; a negative width empties the array without an error
  (`DataArray.SeriesKeepsNumber`).
- Small vector: `resize` appends, so it yields the requested length only for an empty vector
  (`SmallVector.ResizeLengthIffEmpty`); assignment always copies the elements but loses the heap vector of a
  heap-backed target (`SmallVector.SmallVector.Assign`).
- Harvesting: the maps are built exactly for masks without a bit beyond the location table
  (`Harvesting.BuildsIffMaskFits`); the way back from a netlist location fails only for column -1
  (`HarvestMaps.WormholeDevice.NetlistToNoc0AndBack`).

## Model

| member | source | states |
|---|---|---|
| `Incidence.StepKeepsConsistent` | netlist_parser/tt_buffer.py:58-68 | each of the three ways in which the tables change keeps them free of repetitions, mirrored and irreflexive within an op |
| `Incidence.RunKeepsConsistent` | netlist_parser/tt_temporal_epoch.py:146-169 | so does every series of connections and incidence entries |
| `Incidence.RunLinksExactly` | netlist_parser/tt_buffer.py:50-68 | after any series of updates two buffers are same-op neighbours exactly if they were before or an update named them |
| `Incidence.RunLoadsExactly` | netlist_parser/tt_temporal_epoch.py:146-169 | after any series of updates a pipe has an input or output buffer exactly if it had it before or an update named it |
| `Incidence.RunOnlyAppends` | netlist_parser/tt_buffer.py:58-68 | updates keep the order of every table entry: what was there stays in front and new values come behind |
| `Incidence.HopCount` | netlist_parser/tt_pipe.py:79-81 | the number of occurrences of a pipe in the inner loops is the number of buffers that hold it |
| `Incidence.FanCount` | netlist_parser/tt_pipe.py:73-82 | the number of occurrences of a pipe in the whole list is the number of routes to it over the same-op neighbours |
| `Incidence.SuccessorsMirrorPredecessors` | netlist_parser/tt_pipe.py:73-91 | for all pipes p and q, q occurs in the successor list of p exactly as often as p in the predecessor list of q |
| `Incidence.MirrorSurvivesUpdates` | netlist_parser/tt_pipe.py:73-91 | this still holds after any series of connections and any incidence loading |
| `Incidence.NeighboursInside` | netlist_parser/tt_pipe.py:73-91 | successors and predecessors are pipes of the epoch |
| `EpochBuffers.CreateCopies` | netlist_parser/tt_temporal_epoch.py:94-129 | one description yields a base buffer holding its replicas in order, each stored under its id on top of what was there; it fails exactly for a replicated buffer without an op model |
| `EpochBuffers.CopiesMean` | netlist_parser/tt_temporal_epoch.py:94-126 | as many copies as a description asks for and at least one, each with its data, numbered from its id in steps of the gap, and with the cycles of its op model as delay, or none |
| `EpochBuffers.GapExample` | netlist_parser/tt_temporal_epoch.py:115-124 | a buffer 10000 with two replicas and gap 8: the dictionary has exactly the ids 10000, 10008 and 10016 |
| `EpochBuffers.CreateBuffers` | netlist_parser/tt_temporal_epoch.py:88-129 | for the descriptions of one graph behind those of the graphs before, repeated ids included: the dictionary holds the last copy of each id, nothing is linked yet, and all replicas of its buffers are in it if and only if no base buffer that stays has lost one; it fails exactly if some replicated buffer has no op model |
| `EpochBuffers.InDictionaryIffSurvives` | netlist_parser/tt_temporal_epoch.py:104-124 | a copy is what its id leads to if and only if no later copy has the same id |
| `EpochBuffers.KeysNameBuffers` | netlist_parser/tt_temporal_epoch.py:104-124 | an id names one buffer, whether or not ids repeat |
| `EpochBuffers.FlatIffReplicasSurvive` | netlist_parser/tt_temporal_epoch.py:115-129 | the epoch owns every replica of its buffers, and replicas have none themselves, if and only if no base buffer that stays has lost a replica to a repeated id |
| `EpochBuffers.UniqueIdsSurvive` | netlist_parser/tt_temporal_epoch.py:115-129 | ids of their own for all copies are enough for that |
| `EpochBuffers.ReplicaIsReplaced` | netlist_parser/tt_temporal_epoch.py:115-129 | a concrete epoch whose second buffer has the id of a replica of the first: the first still lists a replica that the dictionary no longer holds |
| `PipeGraph.Buffer.AddReplicatedBuffer` | netlist_parser/tt_buffer.py:44-45 | the list of replicas grows by the given buffer |
| `PipeGraph.Buffer.LinkWith` | netlist_parser/tt_buffer.py:59-68 | one pair is linked in both directions, a buffer never with itself; no other table entry changes |
| `PipeGraph.Buffer.ConnectBuffersOfSameOp` | netlist_parser/tt_buffer.py:50-68 | the tables change by exactly the links to the given buffers and their replicas, and the list passed in has grown by the replicas |
| `PipeGraph.GrownOnce` | netlist_parser/tt_buffer.py:55-56 | a list that already holds its base buffers and perhaps their replicas holds exactly both after one more extension |
| `PipeGraph.FeedOutputs` | netlist_parser/gen_nt_trace.py:33-34 | the first loop links every input with every output and output replica and nothing else, although each call extends the list |
| `PipeGraph.FeedInputs` | netlist_parser/gen_nt_trace.py:35-36 | the second loop, over the extended list, links every output with every input and input replica and nothing else |
| `PipeGraph.ConnectOpAtCore` | netlist_parser/gen_nt_trace.py:28-36 | after both loops exactly the pairs of inputs and outputs, replicas included on both sides, have been linked |
| `PipeGraph.Pipe.AddInput` | netlist_parser/tt_temporal_epoch.py:155-156 | the pipe and the buffer refer to each other; no other table entry changes |
| `PipeGraph.Pipe.AddOutput` | netlist_parser/tt_temporal_epoch.py:164-165 | the same for an output buffer |
| `PipeGraph.LoadIncidence` | netlist_parser/tt_temporal_epoch.py:146-169 | succeeds exactly if every id names a buffer, and then the tables have changed by the updates of the descriptions in order |
| `PipeGraph.LoadUpdatesNames` | netlist_parser/tt_temporal_epoch.py:147-169 | a pipe gets exactly the inputs whose ids, with the offset cleared, it lists, and exactly the outputs it lists, nested or not |
| `PipeGraph.KnownMeans` | netlist_parser/tt_temporal_epoch.py:147-166 | the lookups of a pipe succeed if and only if the multiple of 1000000000 at or below every listed input is a key, and every listed output, nested or not |
| `PipeGraph.LoadedInputs` | netlist_parser/tt_temporal_epoch.py:146-156 | after loading, the inputs of a pipe are those it had and exactly the buffers at the multiples of 1000000000 at or below the ids that it lists |
| `PipeGraph.LoadedOutputs` | netlist_parser/tt_temporal_epoch.py:157-169 | after loading, the outputs of a pipe are those it had and exactly the buffers whose ids it lists, on their own or in a nested list |
| `PipeGraph.OffsetExample` | netlist_parser/tt_temporal_epoch.py:147-156 | a pipe that lists 1000000005 gets the buffer 1000000000 as input |
| `PipeGraph.LoadKeepsConsistent` | netlist_parser/tt_temporal_epoch.py:146-169 | loading leaves the tables consistent |
| `TraceOrder.UnprintedIsGreatestStuckSet` | netlist_parser/gen_nt_trace.py:61-78 | for every graph, cyclic or not, the pipes that are never printed are the greatest set in which each pipe waits for another member or has no DRAM start |
| `TraceOrder.AllPrintedIffAcyclicFromDram` | netlist_parser/gen_nt_trace.py:51-78 | every pipe is printed if and only if there is no cycle and every pipe without predecessors reads from DRAM only |
| `TraceOrder.PendingVisit` | netlist_parser/gen_nt_trace.py:47-48 | visiting a pipe lowers the count of unvisited predecessors by the number of times it occurs |
| `TraceOrder.InvStart` | netlist_parser/gen_nt_trace.py:55-62 | the worklist invariant holds before the first pipe |
| `TraceOrder.InvVisit` | netlist_parser/gen_nt_trace.py:63-72 | taking a pipe off the queue keeps it: the counter of an unvisited pipe is the weighted number of its unvisited predecessors, plus what the inner loop still owes |
| `TraceOrder.InvPay` | netlist_parser/gen_nt_trace.py:74-78 | each turn of the inner loop keeps it, whether or not the child has been visited |
| `TraceOrder.InvFinal` | netlist_parser/gen_nt_trace.py:63-78 | with an empty queue the printed order is topological, leaves out nothing that was ready, and is first come first served |
| `PipeTrace.SucceedPipes` | netlist_parser/tt_pipe.py:73-82 | the loops return the successor list of the tables, in order and with repetitions |
| `PipeTrace.PredecessorPipes` | netlist_parser/tt_pipe.py:84-91 | the same for predecessors |
| `PipeTrace.GetMsgSize` | netlist_parser/tt_pipe.py:93-99 | the sum of the sizes of the input buffers |
| `PipeTrace.DependencyIds` | netlist_parser/tt_pipe.py:50-50 | the packet ids of all successors, in order and with repetitions |
| `PipeTrace.PipeToPackets` | netlist_parser/tt_pipe.py:32-55 | one packet for each pair of source and destination, in order, with consecutive ids |
| `PipeTrace.PacketMeans` | netlist_parser/tt_pipe.py:32-71 | for every source and target of a pipe, where its packet is and what it says: id, ends, dependencies, the delay of a source that no other source exceeds, the bytes of all sources, and which numbers of sources and targets and which flag give each kind |
| `PipeTrace.CountPredecessors` | netlist_parser/gen_nt_trace.py:47-49 | each counter is the length of the predecessor list |
| `PipeTrace.StartPipes` | netlist_parser/gen_nt_trace.py:51-59 | the queue holds the pipes without predecessors that read from DRAM, in dictionary order |
| `PipeTrace.PayAll` | netlist_parser/gen_nt_trace.py:74-78 | the inner loop pays for every occurrence of a child and enqueues those that reach zero |
| `PipeTrace.Traverse` | netlist_parser/gen_nt_trace.py:47-78 | terminates for every graph; prints each pipe at most once, after all its predecessors, everything that can be printed, first come first served |
| `PipeTrace.ConnectAll` | netlist_parser/gen_nt_trace.py:19-36 | over all ops and cores, two buffers get linked exactly if some op on some core has them as input and output, replicas included |
| `PipeTrace.GenerateTrace` | netlist_parser/gen_nt_trace.py:19-78 | fails exactly if some buffer that is neither DRAM nor intermediate stays unconnected; otherwise the trace is the packets of a trace order |
| `PipeTrace.DepsComeLater` | netlist_parser/gen_nt_trace.py:63-78 | every dependency of a printed packet is a packet of a successor, and if that pipe is printed the packet comes later in the trace |
| `PipeTrace.AcyclicDepsComeLater` | netlist_parser/gen_nt_trace.py:63-78 | with an acyclic graph and DRAM starts, every dependency of every packet is printed later |
| `PipeTrace.PacketIdsDistinct` | netlist_parser/tt_pipe.py:57-58 | packet ids are pairwise distinct when pipe ids are spaced by at least sources times destinations |
| `EpochTrace.CreatePipes` | netlist_parser/tt_temporal_epoch.py:131-138 | one pipe for each id, a repeated id keeping its place and taking the later description, also when the pipes are created once more for the next graph; it fails exactly at an empty output list |
| `EpochTrace.KeptAgain` | netlist_parser/tt_temporal_epoch.py:131-133 | however often the same pipes are created, the dictionary has the same pipes in the same order |
| `EpochTrace.CreateAll` | netlist_parser/tt_temporal_epoch.py:88-138 | over all graphs: which failure comes first, at the buffers of a graph or at the pipes behind the first graph; otherwise all buffers in a row and each pipe once, or no pipe when there is no graph |
| `EpochTrace.AllKnownIffListed` | netlist_parser/tt_temporal_epoch.py:146-169 | every lookup of the loading loop finds a buffer if and only if every pipe lists only ids of buffers or replicas, offsets of inputs cleared |
| `EpochTrace.TablesAreDescribed` | netlist_parser/tt_temporal_epoch.py:146-169 | after loading and connecting, the tables hold exactly the inputs and outputs that the descriptions list and the pairs of each op on each core |
| `EpochTrace.TraceEpoch` | netlist_parser/gen_nt_trace.py:19-78 | from the descriptions of an epoch, any number of graphs, to its packets: each failure exactly when the descriptions call for it, the dictionary and the data of its buffers as described, the tables named by the descriptions, and a trace of them in a trace order, with nothing assumed about the tables |
| `ArrayLayout.RangesDisjoint` | netlist_parser/tt_parse_elf.py:701-721 | ranges of different index prefixes of one length do not meet and lie in the order of the first differing index |
| `ArrayLayout.RangesCover` | netlist_parser/tt_parse_elf.py:701-721 | every element lies in the range of some prefix |
| `ArrayLayout.RangesTile` | netlist_parser/tt_parse_elf.py:694-721 | for positive dimensions and any prefix length every element is in the range of exactly one in-bounds prefix |
| `ArrayLayout.UpperEnd` | netlist_parser/tt_parse_elf.py:711-719 | indices that pass the check never reach beyond the end of the array |
| `ArrayLayout.LowerEnd` | netlist_parser/tt_parse_elf.py:711-719 | in-bounds indices never start before it |
| `ArrayLayout.NegativeFirstIndexEscapes` | netlist_parser/tt_parse_elf.py:713-719 | indices that pass the check and start with a negative one always lead before the array |
| `ArrayLayout.InsideIffLeadingSign` | netlist_parser/tt_parse_elf.py:713-719 | for indices below the dimensions in size the range is inside if and only if the first index that is not zero is positive, or all are zero |
| `ArrayLayout.InsideIffNoCarry` | netlist_parser/tt_parse_elf.py:711-721 | for any indices the range is inside if and only if normalizing them digit by digit carries nothing over |
| `ArrayLayout.NegativeIndexEscapes` | netlist_parser/tt_parse_elf.py:714-719 | concrete negative indices that are accepted: one starts before the array, one stays inside |
| `AccessPath.GetPtrDereferenceCount` | netlist_parser/tt_parse_elf.py:539-547 | the number of leading asterisks and the text behind them |
| `AccessPath.GetArrayIndices` | netlist_parser/tt_parse_elf.py:550-564 | the loop parses exactly the leading subscripts, with the signs, white space and underscores that `int` takes, or fails at the first that is not closed or no number |
| `AccessPath.SubarraySizes` | netlist_parser/tt_parse_elf.py:706-709 | size `i` is the product of the dimensions behind `i` |
| `AccessPath.GetArrayMemberOffset` | netlist_parser/tt_parse_elf.py:673-721 | element type, row-major offset and block length, or a failure for too many or too large indices or for a type that is no array; no indices at all give one element at offset zero, of what a pointer leads to as well |
| `AccessPath.StepShortens` | netlist_parser/tt_parse_elf.py:598-670 | every turn of the interpreter loop leaves less of the path, so the loop ends |
| `AccessPath.RunMemAccess` | netlist_parser/tt_parse_elf.py:581-670 | the interpreter loop computes the value that the step semantics gives to the path |
| `AccessTypedefs.TypedefsAreTransparent` | netlist_parser/tt_parse_elf.py:225-240 | replacing types of variables, members, elements or pointees by typedefs of them, or the other way round, at any depth, changes no address, size, count or read of any path, and the type reached is never a typedef |
| `AccessTypedefs.NamedVariable` | netlist_parser/tt_parse_elf.py:225-240 | a variable whose type gets a typedef: every path gives exactly what it gave |
| `AccessLaws.VariableAlone` | netlist_parser/tt_parse_elf.py:590-619 | the value of a variable by its name, looking through one reference at the end; an unknown name fails |
| `AccessLaws.MemberOf` | netlist_parser/tt_parse_elf.py:624-637 | `path.n` is read at the address of `path` plus the offset of the member, with its size and type, and followed if it is a reference; a name that is not found fails |
| `AccessLaws.PointedMember` | netlist_parser/tt_parse_elf.py:639-659 | `path->n` reads four bytes where `path` is, and then the member at its offset from there, followed if it is a reference; anything but a pointer with a type fails |
| `AccessLaws.ElementsOf` | netlist_parser/tt_parse_elf.py:661-672 | `path[i][j]...` is read at the row-major offset times the size of an element, with as many elements as lie below the indices; anything but an array fails, and so do too many or too large indices |
| `AccessLaws.Dereferenced` | netlist_parser/tt_parse_elf.py:599-605 | one more star reads four bytes where the value is and then as many values as before where they lead, whatever the number of stars |
| `AccessLaws.NothingBehindSeveral` | netlist_parser/tt_parse_elf.py:625-672 | nothing can follow a path that selects several values |
| `AccessLaws.TypedefExample` | netlist_parser/tt_parse_elf.py:624-637 | a variable of a typedef of a structure of two integers: its second member is four bytes read four bytes behind its address |
| `AccessLaws.ArrowExample` | netlist_parser/tt_parse_elf.py:639-659 | the same structure behind a pointer |
| `AccessSafety.SizeNonNegative` | netlist_parser/tt_parse_elf.py:263-287 | well-formed types have a size that is not negative |
| `AccessSafety.MemberInside` | netlist_parser/tt_parse_elf.py:627-635 | a member found by name, directly or through an unnamed union, lies inside its parent |
| `AccessSafety.StepOnTrack` | netlist_parser/tt_parse_elf.py:598-670 | every step without a negative index keeps the walk inside the object it is in, or enters the one that a pointer designates |
| `AccessSafety.FinishInside` | netlist_parser/tt_parse_elf.py:599-623 | the final dereferences and the final read are inside, except for several selected elements that are then dereferenced |
| `AccessSafety.MemAccessInside` | netlist_parser/tt_parse_elf.py:581-670 | for every path text whose minus signs belong to arrows: every pointer is read inside the object it is in, and the final read stays inside if and only if nothing was dereferenced at the end, one element was selected, or it has no size |
| `AccessText.DecimalRoundTrip` | netlist_parser/tt_parse_elf.py:561-562 | a number written in decimal is parsed back |
| `AccessText.SubscriptsRoundTrip` | netlist_parser/tt_parse_elf.py:550-564 | any list of subscripts written as text is parsed back, with the text behind them |
| `AccessText.SplitName` | netlist_parser/tt_parse_elf.py:520-536 | a name followed by segments is split exactly at the first divider |
| `AccessText.WalkAgrees` | netlist_parser/tt_parse_elf.py:598-670 | interpreting the text of a list of segments is following those segments |
| `AccessText.TextMeansSegments` | netlist_parser/tt_parse_elf.py:581-670 | the text of asterisks, a variable and any proper list of segments is evaluated by following exactly those segments |
| `AccessOutcome.OverrunsIff` | netlist_parser/tt_parse_elf.py:599-623 | for any asterisks, variable and segments: the final read leaves its object if and only if the last segment is a partial index with more than one element below it, a star or a reference follows, and the object reached has a size; all other reads stay inside |
| `AccessOutcome.PartialIndexOverruns` | netlist_parser/tt_parse_elf.py:602-617 | a concrete path that selects two pointers and then follows one: the final read of eight bytes is not inside the object of four |
| `AccessOutcome.LookupIsDesignatedIffNamed` | netlist_parser/tt_parse_elf.py:567-578 | a name is found if and only if it designates a member at most one unnamed member down; what is found is that member if and only if it is an own one, and otherwise has another type |
| `AccessOutcome.StepArrivesIffNamed` | netlist_parser/tt_parse_elf.py:627-650 | for the steps `.` and `->`: a member that lies k unnamed members down is reached if and only if k is at most one and one element is selected, and the step arrives at its type if and only if k is zero |
| `AccessOutcome.UnionMemberYieldsUnion` | netlist_parser/tt_parse_elf.py:567-578 | a concrete structure with an unnamed union: reading its one-byte member gives the four bytes and the type of the union |
| `AccessOutcome.DeepMemberIsMissed` | netlist_parser/tt_parse_elf.py:567-578 | a concrete structure whose member lies two unnamed members down: its path fails |
| `WaitQueue.StepKeepsCovered` | utils/thread_safe_queue.hpp:55-114 | no step breaks the claim that every queued item is claimed by a woken popper or a pending notification while a popper sleeps |
| `WaitQueue.StepKeepsInv` | utils/thread_safe_queue.hpp:55-114 | every step keeps mutual exclusion, validity of a passed predicate, the bound, conservation and that claim |
| `WaitQueue.RunKeepsInv` | utils/thread_safe_queue.hpp:55-114 | so does every interleaving |
| `WaitQueue.NoLostWakeup` | utils/thread_safe_queue.hpp:55-114 | with `max_size == 0`, in every interleaving with spurious wakeups and `clear`, a popper never sleeps beside a non-empty queue with nobody woken |
| `WaitQueue.ContentsSafe` | utils/thread_safe_queue.hpp:55-114 | for every bound: the size bound holds, inserted values are popped, dropped or still there, and one thread at a time is inside |
| `WaitQueue.FirstInFirstOut` | utils/thread_safe_queue.hpp:55-108 | without `push_front` and `clear`, values leave in the order in which they came |
| `WaitQueue.FrontLeavesNext` | utils/thread_safe_queue.hpp:70-108 | a value pushed in front is the next one popped, whatever was queued, unless something else is pushed, popped or cleared in between |
| `QueueCalls.Pushed` | utils/thread_safe_queue.hpp:52-87 | an undisturbed push that finds room puts the value at the end it was asked for, wakes one sleeper if there is any, and frees the mutex |
| `QueueCalls.Popped` | utils/thread_safe_queue.hpp:89-109 | an undisturbed pop takes the first value and wakes nobody |
| `QueueCalls.Cleared` | utils/thread_safe_queue.hpp:111-115 | clearing never waits, drops everything and wakes nobody |
| `QueueCalls.Waits` | utils/thread_safe_queue.hpp:52-109 | a call goes to sleep exactly for room or for a value, and leaves the mutex free and the contents alone |
| `QueueCalls.BoundIsUnsigned` | utils/thread_safe_queue.hpp:55-66 | a bound is compared as the unsigned 64-bit number congruent to it: -1 stands for 18446744073709551615 |
| `QueueCalls.SpuriousWakeup` | utils/thread_safe_queue.hpp:55-67 | a sleeper that wakes without a reason goes back to sleep with nothing changed |
| `BoundedQueue.BoundedLosesWakeup` | utils/thread_safe_queue.hpp:55-108 | for every positive bound a reachable state has a full queue, a sleeping popper and nobody left to wake it |
| `BoundedQueue.NoLostWakeupIffUnbounded` | utils/thread_safe_queue.hpp:55-114 | wakeups are never lost, for any number of threads, if and only if the queue is unbounded |
| `BoundedQueue.NoLostWakeupIffMaxSizeZero` | utils/thread_safe_queue.hpp:35-67 | for every value of `max_size`, negative ones included, wakeups are never lost if and only if it is zero |
| `Feeder.StepKeepsInv` | pybuda/pybuda/backend.py:95-225 | every step keeps the accounting of commands and a token behind every command |
| `Feeder.SyncMeansDone` | pybuda/pybuda/backend.py:133-143 | when `sync` sees an empty queue every scheduled command has finished |
| `Feeder.FinishedIsPrefix` | pybuda/pybuda/backend.py:145-189 | finished commands are always the first ones scheduled, once each and in order |
| `Feeder.JoinMeansDone` | pybuda/pybuda/backend.py:95-103 | after `shutdown` has joined the thread it has ended, and all commands have run unless one failed or the event was set |
| `Feeder.FailureBlocksSync` | pybuda/pybuda/backend.py:133-143 | after a failed command the queue never becomes empty again |
| `FeederRuns.SyncComesBackDone` | pybuda/pybuda/backend.py:133-143 | whenever `sync` comes back, every scheduled command has finished or the event has been set |
| `FeederRuns.SyncGoesOn` | pybuda/pybuda/backend.py:137-141 | with commands queued and no event, `sync` goes on looking and napping |
| `FeederRuns.ThreadSteps` | pybuda/pybuda/backend.py:145-193 | the thread takes items in order and ends by "quit", by a command that raises, or at an empty queue by the event |
| `FeederRuns.TokensFollowCommands` | pybuda/pybuda/backend.py:222-225 | at any time every queued token but the first item stands directly behind a command |
| `FeederRuns.CanFinish` | pybuda/pybuda/backend.py:95-225 | at any time before a failure and before the event, all that was scheduled can still be finished, and after "quit" the thread ends |
| `FeederRuns.WholeRun` | pybuda/pybuda/backend.py:95-225 | a run step by step: two commands, `sync` looking, napping and looking again, and the end of the thread |
| `FeederRuns.FailedRun` | pybuda/pybuda/backend.py:133-193 | a run in which a command raises and only the event brings `sync` back |
| `FeederRuns.TimedOutRun` | pybuda/pybuda/backend.py:152-162 | a run in which the thread ends by the event |
| `CompileStages.StageDescends` | pybuda/pybuda/compile.py:247-273 | every stage that goes on lowers (14 - stage) + 2 * (19 - placer retries) + 4 * (L - recompiles), the two back edges included |
| `CompileStages.StepsByBackEdges` | pybuda/pybuda/compile.py:238-275 | a run takes at most the remaining stages plus two for each placer retry and four for each recompile it makes |
| `CompileStages.RunIsBounded` | pybuda/pybuda/compile.py:205-275 | from a fresh context every run ends or aborts within 14 + 2 * 19 + 4 * L stages |
| `CompileStages.BoundIsAttained` | pybuda/pybuda/compile.py:998-1108 | some run takes exactly that many |
| `CompileRuns.QuietRun` | pybuda/pybuda/compile.py:219-275 | a compile that meets no difficulty takes eleven stages and one more for each of constant evaluation, patterns and training, and stops early behind the configured stage unless that one is skipped or stopping is overruled |
| `CompileRuns.BalancerDecides` | pybuda/pybuda/compile.py:994-1005 | stage 10 leads to stage 11 if and only if every insertion was there before and no NOP insertion has another count, back to stage 9 for the first nineteen times otherwise, and to a failure the twentieth time |
| `CompileRuns.RecompileDecides` | pybuda/pybuda/compile.py:1180-1232 | an error of the backend leads back to stage 9 with one more recompile counted if and only if recompiling is on, the limit is not reached and the overlay has grown or cycles may be adjusted; otherwise nothing changes |
| `CompileRuns.NetlistDecides` | pybuda/pybuda/compile.py:1085-1108 | stage 12 goes on to stage 13 unless the netlist is checked and bad, which is handled as an error of the backend or ends the run |
| `CompileRuns.LoadsAtTheEnd` | pybuda/pybuda/ttdevice.py:815-863 | compiling and loading end well only with a backend that loaded what was compiled last; a broken backend, or a rejection that may not be answered by a recompile, is a failure |
| `CompileRuns.ChangedCountCostsARetry` | pybuda/csrc/passes/fork_join.cpp:1964-1982 | whole runs with one NOP insertion: the insertion costs one retry, and a change of its count one more |
| `CompileStages.LoadingIsBounded` | pybuda/pybuda/ttdevice.py:815-863 | compiling and loading together, early stops included: at most five stages for each recompile, as a backend rejection repeats one more stage |
| `CompileStages.LoadingBoundIsAttained` | pybuda/pybuda/ttdevice.py:815-863 | some run takes exactly 14 + 2 * 19 + 5 * L stages |
| `CompileStages.CompileContext.RunBalancerAndPlacer` | pybuda/pybuda/compile.py:906-1005 | the context and next stage of the stage semantics, the twentieth failed placement aborting |
| `CompileStages.CompileContext.HandleError` | pybuda/pybuda/compile.py:1180-1232 | handled exactly if a recompile is allowed and something can be changed; then back to the pre-placer stage with the counter raised |
| `CompileStages.CompileContext.ExecuteStage` | pybuda/pybuda/compile.py:219-247 | each stage changes the context as the stage semantics says |
| `CompileStages.CompileContext.CompileFromContext` | pybuda/pybuda/compile.py:205-275 | the loop ends, and its result is that of the stage semantics, early stop and abort included |
| `FanIn.FanInSound` | netlist_parser/tt_graph.py:185-218 | whatever the depth counter, nothing outside the transitive closure is returned |
| `FanIn.DirectMeans` | netlist_parser/tt_graph.py:119-164 | one step of the closure: a buffer directly feeds another one if and only if it is an input of a pipe with an output on the core of the other, which is not (255, 255) |
| `FanIn.FanInComplete` | netlist_parser/tt_graph.py:185-218 | nothing is missing while the unvisited pipe inputs are no more than the calls left |
| `FanIn.FanInIsClosure` | netlist_parser/tt_graph.py:185-218 | with at most 401 distinct pipe inputs the result is exactly the transitive closure |
| `FanIn.ChainIsCut` | netlist_parser/tt_graph.py:186-188 | for every larger number there is a layout with that many inputs on which an answer is missing |
| `FanIn.LimitHarmlessIff` | netlist_parser/tt_graph.py:186-189 | the limit is harmless for all layouts with n distinct pipe inputs if and only if n <= 401 |
| `FanIn.Graph.GetCoreBuffers` | netlist_parser/tt_graph.py:153-164 | exactly the buffers on the given cores |
| `FanIn.Graph.GetConnectedBuffers` | netlist_parser/tt_graph.py:119-138 | exactly the buffers at the other end of the pipes that touch the given ones |
| `FanIn.Graph.FanInBufferSet` | netlist_parser/tt_graph.py:185-218 | the recursion over sets, with the shared counter bumped once for every call below the limit |
| `FanIn.Graph.GetFanInCores` | netlist_parser/tt_graph.py:220-236 | the cores of the closure without DRAM, from a counter that is reset first |
| `Netrace.NameBack` | netlist_parser/netrace/nt_trace_handler.py:23-37 | a name survives the 30-byte field if and only if it fits and does not end in a zero byte |
| `Netrace.HeaderBack` | netlist_parser/netrace/nt_trace_handler.py:21-72 | a faithful header is read back and reading stops behind it |
| `Netrace.PacketsBack` | netlist_parser/netrace/nt_trace_handler.py:91-116 | any number of packets with any number of dependencies is read back |
| `Netrace.TraceBack` | netlist_parser/netrace/nt_trace_handler.py:138-153 | a faithful trace is read back, consuming exactly its bytes whatever follows |
| `Netrace.ComesBackOnlyIf` | netlist_parser/netrace/nt_trace_handler.py:138-153 | a trace that comes back and is read to the end of what was written has its texts and counts right, and its notes length too unless it points behind the end of the file |
| `Netrace.RoundTripIffFaithful` | netlist_parser/netrace/nt_trace_handler.py:138-153 | a written trace comes back whatever follows it in the file, with reading stopping behind it, if and only if it is faithful |
| `Netrace.FileRoundTripIff` | netlist_parser/netrace/nt_trace_handler.py:138-153 | the dumped file, with nothing behind it, comes back and is read to its end if and only if texts and counts are right and the notes length is exact, or there are no packets and regions and it is at least that |
| `Netrace.LongNotesExample` | netlist_parser/netrace/nt_trace_handler.py:48-50 | a concrete trace with a wrong notes length whose file comes back all the same |
| `Netrace.NoNotesWithoutLength` | netlist_parser/netrace/nt_trace_handler.py:48-50 | a trace that records notes of length zero never comes back, whatever follows |
| `NetraceReturn.RegionsConsumed` | netlist_parser/netrace/nt_trace_handler.py:60-72 | what is read as regions is what writing them again would put there |
| `NetraceReturn.PacketsConsumed` | netlist_parser/netrace/nt_trace_handler.py:99-147 | what is read as packets is what writing them again would put there |
| `NetraceReturn.GivesBackOnlyIf` | netlist_parser/netrace/nt_trace_handler.py:138-153 | a dumped trace that the reader gives back, whatever it leaves unread, has its texts and counts right and a notes length that is exact, or too large with nothing behind the notes, or short by the terminator with nothing but zeros behind them |
| `NetraceReturn.FileGivesBackIff` | netlist_parser/netrace/nt_trace_handler.py:138-153 | the reader gives a dumped trace back, whether or not it reads the file to its end, if and only if texts and counts are right and the notes length is exact, or too large with no packets and regions, or misses just the terminator with nothing but zeros in all regions and packets |
| `NetraceReturn.MissedTerminatorExample` | netlist_parser/netrace/nt_trace_handler.py:138-147 | a concrete trace that is given back with one byte of its file left unread |
| `NetraceLayout.HeaderLayout` | netlist_parser/netrace/nt_trace_handler.py:21-29 | at which byte of the file each field of the header is, least significant byte first, with the magic number, version 1.0, the padding, the terminator and 24 bytes for each region |
| `NetraceLayout.PacketLayout` | netlist_parser/netrace/nt_trace_handler.py:91-97 | at which byte of a packet each field is, and four bytes for each dependency |
| `NetraceLayout.ReaderInsists` | netlist_parser/netrace/nt_trace_handler.py:31-44 | nothing is read that does not start with the magic number and version 1.0 |
| `NetraceFile.NTHeader.Dump` | netlist_parser/netrace/nt_trace_handler.py:21-29 | appends the bytes of the header exactly if all fields fit and the region count is right |
| `NetraceFile.NTHeader.Read` | netlist_parser/netrace/nt_trace_handler.py:31-72 | assigns the fields exactly if parsing succeeds and leaves the cursor behind them |
| `NetraceFile.NTPacket.Dump` | netlist_parser/netrace/nt_trace_handler.py:91-97 | appends the bytes of the packet exactly if all fields fit |
| `NetraceFile.NTPacket.Read` | netlist_parser/netrace/nt_trace_handler.py:99-116 | assigns the fields exactly if parsing succeeds and leaves the cursor behind them |
| `NetraceFile.NTTrace.Add` | netlist_parser/netrace/nt_trace_handler.py:133-136 | appends the packet, counts it and records the largest cycle |
| `NetraceFile.NTTrace.Dump` | netlist_parser/netrace/nt_trace_handler.py:149-153 | the file holds the bytes of header and packets |
| `NetraceFile.NTTrace.Read` | netlist_parser/netrace/nt_trace_handler.py:138-147 | the header becomes what the bytes say and the packets are added to those already there, or reading fails where parsing does |
| `NetraceFile.BuiltTraceCounts` | netlist_parser/netrace/nt_trace_handler.py:127-136 | traces built by adding packets have the right count and cycle maximum, record a notes length of zero, and none of them is faithful |
| `NetraceFile.BuiltTraceIsNotReadBack` | netlist_parser/netrace/nt_trace_handler.py:127-153 | whatever follows its bytes in the file, a trace built by adding packets is not what reading gives |
| `LittleEndian.FromToBytes` | netlist_parser/tt_object.py:89-95 | the number of the low bytes is the number modulo the range |
| `LittleEndian.ToFromBytes` | netlist_parser/tt_object.py:89-95 | the bytes of the number of a byte string are that string |
| `LittleEndian.FromBytesAppend` | netlist_parser/tt_object.py:99-107 | the number of a concatenation |
| `DataArray.RegroupPads` | netlist_parser/tt_object.py:87-97 | writing the groups back gives the same bytes padded with zeros to whole groups |
| `DataArray.RegroupKeepsNumber` | netlist_parser/tt_object.py:87-97 | regrouping keeps the little-endian number of the whole array, with the least number of groups |
| `DataArray.SeriesKeepsNumber` | netlist_parser/tt_object.py:87-117 | any series of regroupings succeeds if and only if no width is zero; with positive widths it keeps the number, fits every entry and only appends zero bytes, and a negative width anywhere loses all entries |
| `DataArray.NumberArray.Bytes` | netlist_parser/tt_object.py:110-117 | the bytes of all entries, exactly if all fit: none is negative or too large, and the width is not negative unless there are none |
| `DataArray.NumberArray.FromByteString` | netlist_parser/tt_object.py:99-108 | the groups of the byte string, nothing for a negative width, or a failure for width zero |
| `DataArray.NumberArray.ToBytesPerEntry` | netlist_parser/tt_object.py:87-97 | the regrouped array for any width, or a failure exactly for an entry that does not fit or width zero; the failure keeps the width, and the entries only in the first case |
| `Adam.MomentsAgree` | pybuda/pybuda/optimizers.py:324-358 | from agreeing states both moments of the graph and of the reference agree after the step |
| `Adam.StepAgrees` | pybuda/pybuda/optimizers.py:324-422 | one step of the graph without bias correction and of the reference agree on parameter and moments, plain and with decoupled decay |
| `Adam.TraceMatchesReference` | pybuda/pybuda/optimizers.py:324-422 | they agree after every gradient sequence, for any square root |
| `Adam.PowersLoopBack` | pybuda/pybuda/optimizers.py:362-374 | the looped-back powers are the powers of the coefficients after any number of steps |
| `Adam.MeanBounds` | pybuda/pybuda/optimizers.py:339-345 | the looped-back mean lies between the bounds of the gradients scaled by one minus the power |
| `Adam.CorrectedMeanBetweenGradients` | pybuda/pybuda/optimizers.py:362-392 | with 0 <= beta1 < 1 and undecayed gradients the divisor is positive and the corrected mean lies between the smallest and largest gradient seen |
| `AdamCorrection.TraceMatchesCorrected` | pybuda/pybuda/optimizers.py:324-422 | with bias correction, which is the default, the parameter and both moments after every gradient sequence are those of the recursion on numbers that divides by one minus the n-th powers, plain and with decoupled decay |
| `AdamCorrection.SlotsKept` | pybuda/pybuda/optimizers.py:223-263 | the state kept from step to step is both moments, and the two powers with bias correction only |
| `AdamCorrection.DivideIsQuotient` | pybuda/pybuda/optimizers.py:368-386 | multiplying by the reciprocal is dividing where the divisor is not zero |
| `AdamCorrection.FirstStepExample` | pybuda/pybuda/optimizers.py:362-410 | with coefficients 0.9 and 0.99, epsilon 0 and learning rate 1 the first gradient 1 moves the parameter from 0 to -1 |
| `AdamReference.UpdatedIsStepped` | pybuda/pybuda/torch_optimizers.py:41-61 | the tensor operations in their order make every element step as the scalar reference does, with AMSGrad dividing by the root of the largest second moment so far |
| `AdamReference.UpdateOne` | pybuda/pybuda/torch_optimizers.py:36-61 | one iteration updates parameter, moments and, with AMSGrad, their maximum in place, element by element as the reference step |
| `AdamReference.AdamNoBiasCorrection` | pybuda/pybuda/torch_optimizers.py:14-61 | over lists without a shared tensor every parameter makes exactly one such step, with or without AMSGrad |
| `AdamReference.Optimizer.Prepare` | pybuda/pybuda/torch_optimizers.py:114-133 | state is created with zero moments, and a zero maximum exactly with AMSGrad, when there is none, and the step is counted |
| `AdamReference.Optimizer.Collect` | pybuda/pybuda/torch_optimizers.py:107-135 | the lists name exactly the parameters with a gradient, with their own moments and maxima; it fails at the first sparse gradient, with the steps of those before it counted |
| `AdamReference.Optimizer.Step` | pybuda/pybuda/torch_optimizers.py:86-150 | fails exactly for a sparse gradient and then changes no value or moment; otherwise parameters with a gradient make one reference step, all others keep value, moments and step count; no two tensors become shared |
| `AdamReference.LargestIsMaximum` | pybuda/pybuda/torch_optimizers.py:51-55 | over every sequence of gradient tensors, with AMSGrad each element holds the maximum of its second moments so far, the zero at the start among them |
| `AdamReference.OptimizerMatchesTrace` | pybuda/pybuda/optimizers.py:324-422 | over every sequence of gradient tensors, a tensor that starts with zero moments and makes the in-place steps without AMSGrad holds in every element what the operation graph without bias correction computes |
| `SmallVector.InsertThenErase` | utils/small_vector.hpp:124-191 | erasing where an insertion landed gives the vector back, also for positions past the end |
| `SmallVector.ResizeLengthIffEmpty` | utils/small_vector.hpp:130-133 | resizing yields the requested length if and only if the vector was empty |
| `SmallVector.SmallVector.FromArrToVec` | utils/small_vector.hpp:208-213 | all inline elements move to the heap vector |
| `SmallVector.SmallVector.FromVecToArr` | utils/small_vector.hpp:215-221 | the heap vector is destroyed and as many elements as fit are inline again |
| `SmallVector.SmallVector.Push` | utils/small_vector.hpp:83-99 | appends, switching to the heap exactly when the inline storage is full |
| `SmallVector.SmallVector.Pop` | utils/small_vector.hpp:107-122 | drops the last element, switching back exactly when the rest fits; refuses an empty vector |
| `SmallVector.SmallVector.InsertAt` | utils/small_vector.hpp:124-128 | inserts before the position, or appends when it is past the end |
| `SmallVector.SmallVector.EraseAt` | utils/small_vector.hpp:169-191 | removes the element and keeps the order of the others |
| `SmallVector.SmallVector.ResizeBy` | utils/small_vector.hpp:130-133 | appends that many copies |
| `SmallVector.SmallVector.ClearAll` | utils/small_vector.hpp:139-147 | empties the vector and destroys a heap vector |
| `SmallVector.SmallVector.Assign` | utils/small_vector.hpp:47-59 | holds the elements of the other vector, which stays as it is; a heap vector is lost exactly if this one was heap-backed; an inline vector may be the other one itself |
| `SmallVector.SmallVector.PerformAll` | utils/small_vector.hpp:83-191 | any run of operations behaves as on a plain sequence, inline exactly when the size fits, for any capacity, and loses no heap vector |
| `Harvesting.BuildsIffMaskFits` | netlist_parser/tt_wormhole.py:113-120 | building the maps succeeds if and only if no mask bit lies beyond the rows or the location table |
| `Harvesting.BitsAreRead` | netlist_parser/tt_wormhole.py:117-118 | the mask made of a list of bits has exactly those bits set |
| `Harvesting.BitsAreCounted` | netlist_parser/tt_device.py:171-172 | and as many of them as the list |
| `Harvesting.HarvestedIsDistinct` | netlist_parser/tt_wormhole.py:113-120 | with a good table the harvested rows are distinct, no Ethernet rows, and as many as set bits below the row count |
| `Harvesting.SurvivorIff` | netlist_parser/tt_wormhole.py:162-168 | the working rows are exactly the rows that are neither harvested nor Ethernet, ascending |
| `Harvesting.TableIsPermutation` | netlist_parser/tt_wormhole.py:154-174 | Ethernet, working and harvested rows together are every device row exactly once |
| `HarvestMaps.WholeTableWritten` | netlist_parser/tt_wormhole.py:154-174 | the three runs of writes meet without a gap |
| `HarvestMaps.WrittenFrom16` | netlist_parser/tt_device.py:167-173 | from 16 up the map is the table, below it stays the identity, and the keys are in ascending order |
| `HarvestMaps.ReverseUndoes` | netlist_parser/tt_device.py:175-177 | the reverse map leads back to the row from 16 up although the identity entries come first |
| `HarvestMaps.RowsFrom16AreABijection` | netlist_parser/tt_device.py:164-177 | for any row count, good table and accepted mask the rows from 16 up are a bijection onto all device rows with the reverse map as inverse |
| `HarvestMaps.TensixRoundTrip` | netlist_parser/tt_wormhole.py:123-152 | the tensix conversions are inverse exactly where they are defined, for all integers |
| `HarvestMaps.WormholeDevice.GetHarvestedNoc0YRows` | netlist_parser/tt_wormhole.py:113-120 | the loop collects the harvested rows in mask order or fails at a bit beyond the table |
| `HarvestMaps.WormholeDevice.CreateTensixNetlistHarvestingMap` | netlist_parser/tt_device.py:145-162 | the two row dictionaries are inverse to each other and number the working rows |
| `HarvestMaps.WormholeDevice.HandleHarvestingForNocTrNoc0Map` | netlist_parser/tt_wormhole.py:154-174 | writes Ethernet, working and harvested rows each at its start, or fails when the harvested rows are fewer than counted |
| `HarvestMaps.WormholeDevice.CreateNocTrNoc0HarvestingMap` | netlist_parser/tt_device.py:164-177 | succeeds exactly for accepted masks; the second dictionary is the reverse in insertion order |
| `HarvestMaps.WormholeDevice.Noc0ToNetlistAndBack` | netlist_parser/tt_device.py:320-340 | a device location has a netlist location exactly on a working row off the DRAM columns, and leads back |
| `HarvestMaps.WormholeDevice.NetlistToNoc0AndBack` | netlist_parser/tt_device.py:320-340 | every netlist row has a device location; the way back fails only for column -1 |
| `HarvestMaps.WormholeDevice.NocTrRoundTrip` | netlist_parser/tt_device.py:295-305 | device locations and translated locations from 16 up correspond one to one |
| `HarvestMaps.WormholeRows` | netlist_parser/tt_wormhole.py:109-111 | the shipped location table is good for twelve rows |
| `HarvestMaps.WormholeLocations` | netlist_parser/tt_wormhole.py:109-111 | the bits stand for the rows 11, 1, 10, 2 and so on from the outside in |
| `HarvestMaps.WormholeTranslation` | netlist_parser/tt_wormhole.py:95-107 | the translated column of every device column, by number |
| `HarvestMaps.MaskFive` | netlist_parser/tt_wormhole.py:113-120 | mask 5 harvests the rows 11 and 10 |
| `HarvestMaps.WormholeColumns` | netlist_parser/tt_wormhole.py:95-107 | the shipped column tables are inverse and start at 16 |
| `HarvestMaps.WormholeMasks` | netlist_parser/tt_wormhole.py:109-120 | with the shipped tables exactly the masks below 1024 are accepted |

## Left out

- Parsing of YAML and ELF files, device register reads, sockets, processes, printing and logging are not modelled; parsed
  descriptions, memory words and the results of passes are inputs.
- The selection of the buffers of an op on a core (netlist and core lookups) is not modelled: the groups are inputs of the
  trace generation.
- `EpochBuffers.CreateBuffers`: the map from cores to buffers, which the trace does not use, is not modelled.
- `EpochTrace.TraceEpoch`: assumes that no base buffer that stays in the dictionary has lost a replica to a repeated id, and
  that the ops name buffers of the epoch; both are conditions on the descriptions.
- Node ids of packets are opaque numbers; the formula that makes them from coordinates is not modelled.
- `AccessPath.RunMemAccess`: names are ASCII words, paths contain no line break, and a reference carries its byte size of 4
  like a pointer.
- `AccessPath.GetArrayIndices`: digits and white space outside ASCII, which `int` accepts too, are not modelled.
- `AccessLaws.MemberOf`: says what is read for types that are plain or references to plain ones; typedefs are the subject of
  `AccessTypedefs.TypedefsAreTransparent`. The same holds for the other laws.
- `AccessLaws.Dereferenced`: pointees are plain types, since C has no pointers to references.
- `AccessSafety.MemAccessInside`: the final read is not inside in one case, which the contract states as an equivalence; paths
  with negative indices are left to the lemmas about arrays.
- The constructors of the queue, its copy, and the references that `front`, `back` and `at` hand out are not modelled.
- `Feeder.SyncMeansDone`: the wait for the device after the loop is a call into the backend and is not modelled.
- Verification calls, continuous-integration paths and the bodies of the passes are left out of the compile driver; a pass is
  represented by what it comes back with.
- Netrace: bzip2 compression, decoding of UTF-8 (names and notes are bytes), floating-point versions other than 1.0, the
  contents of a file after a failed dump and of a trace after a failed read, and the textual dump are not modelled. The
  record layout is the one both sides use.
- Adam: rounding, data formats, the queue that holds the gradient, `torch_parameter_update` and the learning rate pushed by
  `set_optimizer_parameters` are not modelled. LARS and LAMB are not modelled.
- `AdamReference.Optimizer.Step`: one parameter group, whose AMSGrad option does not change, and no closure that recomputes
  the loss.
- `Adam.TraceMatchesReference`: weight decay is not negative, as the constructor of the reference demands.
- `SmallVector.SmallVector.Assign`: copying a heap-backed vector over itself, which C++ leaves undefined, is not modelled;
  byte-wise comparison, iterators and arguments that alias an element are left out too.
- `HarvestMaps.WormholeDevice.CreateNocTrNoc0HarvestingMap`: the partial dictionaries after an error and the identity maps of
  Grayskull devices are not modelled.
- The conversions between die, NOC 1 and virtual coordinates are table lookups that would only add easy members.
- The set operations of `TTObjectIDDict` are comprehensions that would only add easy members.
