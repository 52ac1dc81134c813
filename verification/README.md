# gem5: a verified model of a coherence protocol and of the tooling

This project models a coherence protocol of gem5 and the algorithms of its Python tooling and
configuration scripts in Dafny 4.11, and proves what they are for. Nothing here runs the original programs; every claim is a
contract that the Dafny verifier checks (`dafny verify dfyconfig.toml`).

## What is modelled

- **Coherence protocol MI_example** (`MessageCounts`, `MiProtocol`, `MiCoherence`, `MiRuns`,
  `MiProgress`, `MiService`, `MiDma`, `MiDmaRuns`). One cache line, any number of caches, a directory and a
  memory; the network delivers messages in any order and after any time. Over every run of caches:
  no controller meets a message it has no transition for, at most one cache has the block, every
  load sees the latest store, and once the processors ask for nothing more only so many messages
  are delivered until every waiting load and store has been answered. The invariant counts, for
  each cache, the messages under way for it, and says in which of its states which counts are
  possible. With DMA devices the invariant and the coherence of loads, stores, device reads and
  device writes hold as far as every run gets; there is no transition in exactly three kinds of
  situation, which can occur in every system that has a cache and a device; and a device's write
  of a part of the block loses a store exactly when memory is behind outside that part.
- **Pipeline viewer** (`PipeviewQueue`, `PipeviewTrace`, `PipeviewTimeline`). Instructions reach the
  viewer out of order. A queue is sorted and partly drained whenever it overflows. The output is
  sorted exactly when no instruction arrives behind a drain that would have had to print it, and
  bounded disorder implies that. From the lines of a trace to the printed window: exactly the
  instructions of the window, each once, in order. In the timeline each event is in exactly one
  row; row and column give back the cycles of the events in long form always, and in compact form
  exactly when the last event comes less than a row width of cycles after the fetch.
- **Checkpoint upgrader** (`CptRounds`, `CptDepth`, `CptLoad`). Tags are applied in rounds. A run
  applies exactly what is needed, each script once, when all it depends on is there. With
  upgraders only, it aborts exactly when the missing tags have a dependency cycle. With
  downgraders too, it ends exactly when the missing upgrades have no cycle and no script depends
  on a tag that is absent for good or removed in a round before the script's own; that round is
  the length of the script's longest chain of missing upgrades. Loading makes the chain of legacy
  versions, turns forward dependencies round while iterating, and audits that all names exist.
- **Micro-assembler parser** (`MicroAsmTables`, `MicroAsmItems`, `MicroAsmGrammar`, `LrTrees`,
  `LrDriver`, `LrComplete`). The action and goto tables are data. Finite checks relate them to the
  productions; general theorems then give that the driver with these tables decides exactly the
  language of the grammar, never gets stuck inside a reduction, and that the grammar is
  unambiguous.
- **Trace files** (`PyInt`, `PyStr`, `Protolib`, `DepTrace`). Varints as the "Base 128 Varints"
  section of the Protocol Buffers Encoding specification describes them, computed with Python's
  bitwise operations on unbounded integers; length-prefixed messages; and the text form of
  instruction dependency records. Round trips hold exactly under the stated conditions.
- **Port binder** (`PortBinder`). One greedy pass with a counter for each port. When its count
  comes out, every connection was made once, whatever the order; and the pass succeeds exactly when
  some choice of entries in that order would.
- **GPU configuration** (`GpuLayout`, `GpuTlb`). A list of sequencers built by one script and taken
  apart by another one; the wiring of the translation hierarchy.
- **Smaller scripts**: the memory test's cache tree (`Memtest`), periodic checkpoints
  (`PeriodicCheckpoints`), years in copyright notices (`Copyrights`), merging checkpoints
  (`Aggregator`), the latency sweep's sizes (`RangeSweep`), and the rolling log (`Logroll`).

`Arith` holds facts on quotients and remainders.

## Where the code and its description differ

- Queue of the viewer: the comment promises sorted output when no instruction is out of order by
  more than `min_threshold` places. This holds; but it is not necessary
  (`DisorderBeyondLimitCanStillSort`), and `FlushedIsSortedIff` gives the exact condition.
- Timeline of the viewer: in compact form two events 80 cycles apart can share a column at the
  default scale (`EightyCyclesInOneColumn`); `TellsCyclesIff` gives the exact condition.
- Upgrader: the comment says that depending on a tag with a downgrader means insisting on the
  downgrader being executed first. The code asks for the tag to be present. The downgrader runs
  first exactly when both are ready in the same round and the iteration over that round takes it
  first (`RemovedFirstIff`), which another order of the same round always avoids
  (`RemovalNeverGuaranteed`). Told before the migration: it can run first if and only if it is
  needed and has the same depth (`CanRunAfterIff`). `SameRoundRace` is a checkpoint on which both orders are possible,
  and `DoneIff` says when such a dependency lets the migration end at all.
- Port binder: the comment says that sorting makes exactly one of each pair bindable. It does not
  (`SortedOrderCanFail`). A connection of a port with itself is listed once but counts for two, so
  the final count can hide a connection that was not made (`CountCanHide`, and `AllBoundIff` for
  the exact condition).
- Periodic checkpoints: a checkpoint that the guest asks for ends the series after that period,
  because the loop tests a stale cause (`GuestEndsSeries`, and `CompleteIff` for the exact
  condition).
- Coherence protocol with DMA: while the directory waits for the owner's block, or for memory to
  confirm it, it has no transition for a second DMA request nor for the writeback of a former
  owner; and a cache in II or MII has none for an invalidation (`NoTransitionIff`,
  `EachSituationOccurs`, `AlwaysDefinedIff`). A DMA write that finds an owner drops the owner's
  block, with what was stored outside the written part (`StoreIsLost`; `EveryWriteExactIff` gives
  the exact condition).
- Message files: an empty message is read as the end of the file (`EmptyMessageEndsFile`).
- Dependency records: a computation with a request field is printed and read back without
  complaint, with that field taken for its delay (`RequestTakenForDelay`).
- Year ranges: a run of years that starts before 1000 or ends after 9999 is not read back
  (`LosesTheYear1000`, and `RoundTripIff` for the exact condition).
- Merging checkpoints: the text written as padding consists of the digit zero, not of zero bytes
  (`Padded`).

## Model

| member | source | states |
|---|---|---|
| MiProtocol.StepKept | gem5/src/mem/ruby/protocol/MI_example-cache.sm:430-529 | whatever happens next, the controller has a transition for it, and the structure is kept: the messages under way for every cache, and the block in one place |
| MiProtocol.ServedKeeps | gem5/src/mem/ruby/protocol/MI_example-cache.sm:488-524 | a cache that hands the block on, from M or during its writeback, keeps the structure |
| MiProtocol.NackKeeps | gem5/src/mem/ruby/protocol/MI_example-cache.sm:516-529 | a refused writeback, whether it overtakes the forward or not, keeps the structure |
| MiProtocol.FetchKeeps | gem5/src/mem/ruby/protocol/MI_example-dir.sm:543-549 | a request that finds the block in memory keeps the structure |
| MiProtocol.RedirectKeeps | gem5/src/mem/ruby/protocol/MI_example-dir.sm:626-630 | a request sent on to the owner keeps the structure, and the requestor is never the owner |
| MiProtocol.AcceptKeeps | gem5/src/mem/ruby/protocol/MI_example-dir.sm:632-637 | the owner's writeback keeps the structure |
| MiProtocol.RefuseKeeps | gem5/src/mem/ruby/protocol/MI_example-dir.sm:645-653 | a writeback by a cache that is no longer the owner keeps the structure |
| MiCoherence.WritebackHasLast | gem5/src/mem/ruby/protocol/MI_example-dir.sm:632-637 | what the owner writes back is the latest value |
| MiCoherence.InvKept | gem5/src/mem/ruby/protocol/MI_example-dir.sm:530-653 | every step keeps the invariant: structure, and the latest value wherever the block is |
| MiRuns.EveryRun | gem5/src/mem/ruby/protocol/MI_example-cache.sm:430-529 | for every run: no undefined transition, and every load sees the latest completed store |
| MiRuns.SingleWriter | gem5/src/mem/ruby/protocol/MI_example-cache.sm:51-60 | in every state of every run at most one cache is in M, and the directory knows |
| MiRuns.NoStoreLost | gem5/src/mem/ruby/protocol/MI_example-dir.sm:632-643 | in every state of every run: an idle directory means that memory has the latest store, and a cache in M has it |
| MiProgress.EveryRunOrderly | gem5/src/mem/ruby/protocol/MI_example-dir.sm:385-400 | forwards go from earlier owners to later ones, and a directory that waits for memory has a message under way |
| MiProgress.NoDeadlock | gem5/src/mem/ruby/protocol/MI_example-cache.sm:430-436 | in every state of every run, while a cache waits some message can be taken |
| MiService.QuietRunIsShort | gem5/src/mem/ruby/protocol/MI_example-dir.sm:530-653 | without new requests of the processors, no more deliveries take place than the weight of the messages under way allows |
| MiService.EveryRequestIsServed | gem5/src/mem/ruby/protocol/MI_example-cache.sm:474-486 | after any run, once the processors ask for nothing more: every order of deliveries ends, and then no cache waits and every waiting load and store has been answered, stores with their own value |
| MiService.CanComeToRest | gem5/src/mem/ruby/protocol/MI_example-cache.sm:430-529 | from every reachable state the network can be brought to rest by deliveries alone |
| MiDma.StepSound | gem5/src/mem/ruby/protocol/MI_example-dir.sm:530-653 | with DMA devices, in every state of the invariant and whatever happens next: a step that is taken keeps the invariant and every read tells the latest block; there is no transition if and only if one of three guards holds |
| MiDma.WriteKeepsInv | gem5/src/mem/ruby/protocol/MI_example-dir.sm:575-585 | in directory state I a device's write to memory keeps the whole coherence invariant |
| MiDma.OwnerAnswersRead | gem5/src/mem/ruby/protocol/MI_example-dir.sm:587-605 | the owner's writeback in M_DRD gives the device the latest block and keeps the invariant |
| MiDma.OwnerAnswersWrite | gem5/src/mem/ruby/protocol/MI_example-dir.sm:607-624 | the owner's writeback in M_DWR makes the device's words the latest and keeps the invariant |
| MiDma.InvalidationKept | gem5/src/mem/ruby/protocol/MI_example-cache.sm:434-456 | an invalidation keeps the invariant in every state of a cache, and has no transition exactly in II and MII |
| MiDma.PendingStays | gem5/src/mem/ruby/slicc_interface/AbstractController.cc:254-276 | what memory makes of a device's words when they arrive is what the directory announced |
| MiDma.ExactIff | gem5/src/mem/ruby/protocol/MI_example-dir.sm:499-510 | a device's write leaves the other words alone if and only if memory has the latest of them, and always in directory state I |
| MiDmaRuns.EveryRunWithDevices | gem5/src/mem/ruby/protocol/MI_example-dir.sm:530-653 | for every run with devices, as far as it gets: the invariant holds, and loads and device reads see the block of the latest store or device write |
| MiDmaRuns.NoTransitionIff | gem5/src/mem/ruby/protocol/MI_example-dir.sm:530-653 | after every run: the next step has no transition if and only if it is a writeback in M_DRDI or M_DWRI or of a non-owner in M_DRD or M_DWR, a device's request in one of these four states, or an invalidation at a cache in II or MII |
| MiDmaRuns.EachSituationOccurs | gem5/src/mem/ruby/protocol/MI_example-dir.sm:587-624 | a run for each of the three, in every system with the caches and the device it needs |
| MiDmaRuns.AlwaysDefinedIff | gem5/src/mem/ruby/protocol/MI_example-dir.sm:530-653 | no run meets an undefined transition if and only if there is no cache or no device |
| MiDmaRuns.EveryWriteExactIff | gem5/src/mem/ruby/protocol/MI_example-dir.sm:499-510 | over every run, the exact condition for a device's write to leave the other words as they were last stored or written |
| MiDmaRuns.StoreIsLost | gem5/src/mem/ruby/protocol/MI_example-dir.sm:607-617 | a run, for any two blocks that differ outside the written part, in which a store is lost |
| PipeviewQueue.PrintQueue.QueueInst | gem5/util/o3-pipeview.py:154-159 | an arriving instruction is queued, and an overflow drains the queue to the lower threshold |
| PipeviewQueue.PrintQueue.PrintInsts | gem5/util/o3-pipeview.py:162-184 | sorting in place and popping: what is printed and what stays are those of the specification |
| StableSort.SortIsStableSort | gem5/util/o3-pipeview.py:164-165 | the sort is ordered by sequence number and keeps arrival order within one number |
| StableSort.StableSortUnique | gem5/util/o3-pipeview.py:164-165 | there is only one such sequence, so the specification determines the library's sort |
| StableSort.SortAfterSort | gem5/util/o3-pipeview.py:164-165 | sorting again after more arrivals gives the sort of everything |
| PipeviewQueue.RunKeepsAll | gem5/util/o3-pipeview.py:154-184 | over a whole run nothing is lost and nothing duplicated |
| PipeviewQueue.FlushedKeepsAll | gem5/util/o3-pipeview.py:145-184 | the flushed output is a rearrangement of the input |
| PipeviewQueue.FlushedIsSortedIff | gem5/util/o3-pipeview.py:45-50 | the output of a whole run is the stable sort of the input if and only if every instruction arrives in time |
| PipeviewQueue.BoundedDisorderPrintsSorted | gem5/util/o3-pipeview.py:45-50 | disorder within the lower threshold: the printed window is the filtered stable sort of everything queued |
| PipeviewQueue.DisorderBeyondLimitCanStillSort | gem5/util/o3-pipeview.py:45-50 | more disorder does not always spoil the output |
| PipeviewTrace.FindRegion | gem5/util/o3-pipeview.py:81-105 | the skipping loops find the region's first fetch |
| PipeviewTrace.ProcessTrace | gem5/util/o3-pipeview.py:124-149 | the main loop queues the instructions of the region and flushes at its end |
| PipeviewTrace.OtherLinesDoNotMatter | gem5/util/o3-pipeview.py:81-149 | lines of other kinds between the records change nothing |
| PipeviewTrace.PrintsTheWindow | gem5/util/o3-pipeview.py:60-149 | for a trace with bounded drift and disorder, exactly the window's instructions are printed, in stable order |
| PipeviewTimeline.OneRowPerTick | gem5/util/o3-pipeview.py:223-250 | every tick of an instruction's life is in exactly one row |
| PipeviewTimeline.EveryEventInOneRow | gem5/util/o3-pipeview.py:223-259 | every stage that happened is shown in exactly one row, in compact and in long form |
| PipeviewTimeline.RowText | gem5/util/o3-pipeview.py:259-279 | a row read column by column is its marks and dots, as long as the width plus the marks that share a column |
| PipeviewTimeline.MarkIsShown | gem5/util/o3-pipeview.py:250-272 | every mark of a row stands, by its letter, for a recorded stage of that row in that column |
| PipeviewTimeline.ShownHasMark | gem5/util/o3-pipeview.py:250-272 | every recorded stage of a row that is not hidden has its mark |
| PipeviewTimeline.CompactTicksIff | gem5/util/o3-pipeview.py:234-250 | in compact form the columns give back the cycles of all ticks from fetch to last event if and only if these are less than a row width apart in cycles |
| PipeviewTimeline.TellsCyclesIff | gem5/util/o3-pipeview.py:223-278 | row and column of every mark give back the cycle of its stage always in long form, and in compact form if and only if the last event is less than a row width of cycles after the fetch |
| PipeviewTimeline.EightyCyclesInOneColumn | gem5/util/o3-pipeview.py:234-250 | at the default scale, a fetch at 999 and an issue at 80500 are marked in the same column of the only row |
| PipeviewTimeline.DrawMarks | gem5/util/o3-pipeview.py:260-279 | the drawing loop writes the specified cells |
| PipeviewTimeline.PrintInst | gem5/util/o3-pipeview.py:246-279 | the rows of an instruction, and when the compact form has no first event |
| PipeviewTimeline.NoFirstEventIff | gem5/util/o3-pipeview.py:262 | the lookup of the first event fails exactly when the instruction has no tick |
| CptRounds.DoneTags | gem5/util/cpt_upgrader.py:242-254 | a run that ends leaves the upgrade tags in, the downgrade tags out and no other changed |
| CptRounds.StuckWaits | gem5/util/cpt_upgrader.py:244-248 | a script left over waits for another one left over, or for a removed tag |
| CptRounds.LeftIsLargestBlocked | gem5/util/cpt_upgrader.py:244-248 | what is left when the loop gives up is the largest blocked set of missing tags |
| CptRounds.AbortsIffCycle | gem5/util/cpt_upgrader.py:242-254 | with upgraders only, the loop aborts if and only if the missing tags have a dependency cycle, and one is then among the tags left |
| CptRounds.AbsentBlocks | gem5/util/cpt_upgrader.py:138-142 | depending on a tag that is absent and that no upgrader makes blocks a script for ever |
| CptRounds.ApplyAll | gem5/util/cpt_upgrader.py:250-252 | one pass over the ready set, in any order, updates every script of it once; every removal finds its tag |
| CptRounds.Migrate | gem5/util/cpt_upgrader.py:242-254 | the loop reaches the specified outcome, and its log consists of rounds that each take all scripts ready then, together exactly the needed ones but those left over |
| CptRounds.CarriedTags | gem5/util/cpt_upgrader.py:242-254 | after any number of rounds the tags are the first ones with the applied upgrades added and the applied downgrades removed, and what they need is what is left |
| CptRounds.WhenApplied | gem5/util/cpt_upgrader.py:138-142 | when a script is applied, an upgrade it depends on was there or made by an earlier round; a tag with a downgrader was there at the start and removed by no earlier round |
| CptRounds.AppliedOnce | gem5/util/cpt_upgrader.py:250-254 | no script is applied twice |
| CptRounds.RemovedFirstIff | gem5/util/cpt_upgrader.py:56-61 | a downgrader runs before a script that depends on its tag if and only if it comes earlier in the same round |
| CptRounds.RemovalNeverGuaranteed | gem5/util/cpt_upgrader.py:56-61 | in every run in which such a script is applied, another order of its round runs it with the tag still there |
| CptRounds.SameRoundRace | gem5/util/cpt_upgrader.py:56-61 | a checkpoint on which both orders are possible, and the upgrader may run with the tag already removed |
| CptDepth.DepthIsLongestChain | gem5/util/cpt_upgrader.py:242-254 | the depth of a script is the length of its longest chain of missing upgrades |
| CptDepth.DepthExistsIff | gem5/util/cpt_upgrader.py:244-248 | there are depths if and only if the missing upgrades have no dependency cycle |
| CptDepth.DoneIff | gem5/util/cpt_upgrader.py:242-254 | with upgraders and downgraders: the loop ends without aborting if and only if there are depths, every other tag a needed script depends on is there, and none is removed at a smaller depth than the script's |
| CptDepth.DepthsDecide | gem5/util/cpt_upgrader.py:242-254 | without a cycle this condition on the depths alone decides |
| CptDepth.RoundIsDepth | gem5/util/cpt_upgrader.py:242-254 | in a run that ends, round k applies exactly the scripts of depth k |
| CptDepth.CanRunAfterIff | gem5/util/cpt_upgrader.py:56-61 | of a script and the downgrader of a tag it depends on, some run takes the downgrader first if and only if it is needed and has the same depth |
| CptLoad.LinkLegacy | gem5/util/cpt_upgrader.py:165-169 | the legacy chain is made up to the first missing version; it fails exactly when version 3 exists without version 2 |
| CptLoad.ChainedAt | gem5/util/cpt_upgrader.py:165-169 | each version of the chain depends on exactly the one before, all others keep what they declared |
| CptLoad.ResolveForward | gem5/util/cpt_upgrader.py:171-183 | resolution and audit succeed exactly when all declared and forward names exist |
| CptLoad.ResolvedAt | gem5/util/cpt_upgrader.py:171-178 | afterwards a script depends on what it declared and on those that named it forward, and on nothing else |
| CptLoad.LoadAll | gem5/util/cpt_upgrader.py:159-183 | loading as a whole, and that it leaves only dependencies that exist |
| CptLoad.ConvertLegacy | gem5/util/cpt_upgrader.py:209-216 | a legacy version stands for the tags from 2 up to it; it fails exactly when one of them is missing |
| CptLoad.LoadedChain | gem5/util/cpt_upgrader.py:165-178 | turning forward dependencies round keeps the legacy chain |
| CptLoad.LegacyVersionsInOrder | gem5/util/cpt_upgrader.py:165-169 | for a legacy checkpoint a later version is applied in a later round |
| MicroAsmItems.TablesChecked | gem5/parsetab.py:10-59 | the tables agree with the productions: links, reductions, gotos and termination ranks |
| LrDriver.ReduceFindsHandle | gem5/ext/ply/ply/yacc.py:945-1015 | in every reachable configuration a reduce finds exactly its right-hand side on the stack and a defined goto |
| LrDriver.Parse | gem5/ext/ply/ply/yacc.py:909-1020 | the driver loop terminates with the specified outcome |
| LrDriver.ParseSound | gem5/parsetab.py:10-59 | an accepted input is the yield of the returned tree, which derives from the start symbol |
| LrComplete.ParseComplete | gem5/parsetab.py:10-59 | the yield of any derivation tree is accepted, with that very tree |
| LrComplete.ParseDecides | gem5/parsetab.py:10-59 | checked tables: accepted if and only if derivable |
| MicroAsmGrammar.TablesCheckedComplete | gem5/parsetab.py:10-59 | the finite checks that completeness needs hold of these tables |
| MicroAsmGrammar.ParserDecidesGrammar | gem5/src/arch/micro_asm.py:310-482 | the micro-assembler's parser accepts exactly the language of its grammar |
| MicroAsmGrammar.GrammarIsUnambiguous | gem5/parsetab.py:10-59 | no input has two derivation trees |
| PyInt.AndOnes | gem5/util/protolib.py:143-155 | masking with k ones is the remainder by 2^k, on all integers |
| PyInt.OrHighOnes | gem5/util/protolib.py:119-121 | setting all high bits is the remainder minus 2^k |
| Protolib.EncodeVarint32 | gem5/util/protolib.py:143-155 | the loop with bit operations writes the base-128 digits |
| Protolib.DecodeVarint32 | gem5/util/protolib.py:98-126 | the loop reads the first complete number, cut to 32 bits with a 64-bit sign, or the end of the file, or fails after ten bytes |
| Protolib.SizeAfterWrite | gem5/util/protolib.py:98-155 | what any written number reads back as |
| Protolib.SizeRoundTripIff | gem5/util/protolib.py:98-155 | a number comes back if and only if it is below 2^32 |
| Protolib.PrefixFree | gem5/util/protolib.py:143-155 | no encoding is the beginning of another |
| Protolib.CanonicalIff | gem5/util/protolib.py:98-155 | the bytes read are those that would be written if and only if the last one is not a needless zero |
| Protolib.DecodeMessage | gem5/util/protolib.py:128-141 | one message, or none for a length of zero, the end of the file or an overlong length |
| Protolib.EncodeMessage | gem5/util/protolib.py:157-163 | a frame is the length followed by the message |
| Protolib.FileRoundTripIff | gem5/util/protolib.py:128-163 | a file of messages reads back if and only if all are non-empty and shorter than 2^32 bytes |
| Protolib.EmptyMessageEndsFile | gem5/util/protolib.py:134-136 | with an empty message present, exactly the messages before it are recovered |
| Protolib.CutFile | gem5/util/protolib.py:128-141 | a file cut short anywhere gives its first messages and at most one cut short |
| PyStr.SplitOfJoin | gem5/util/encode_inst_dep_trace.py:147-148 | splitting undoes joining when no part has the separator |
| PyStr.IntOfDecimal | gem5/util/encode_inst_dep_trace.py:151-153 | reading a printed number gives the number |
| DepTrace.PrintRecord | gem5/util/decode_inst_dep_trace.py:157-203 | the pieces written for a record are the specified line |
| DepTrace.ReadDeps | gem5/util/encode_inst_dep_trace.py:181-193 | the loop over dependency entries skips empty ones and fails on the first that is no number |
| DepTrace.RoundTripIff | gem5/util/encode_inst_dep_trace.py:146-195 | a printed record is read back, defaults filled in, if and only if it is complete |
| DepTrace.RequestTakenForDelay | gem5/util/encode_inst_dep_trace.py:174-176 | a computation with an address gets the address as its delay |
| DepTrace.Decode | gem5/util/decode_inst_dep_trace.py:153-203 | the printing loop writes one line for each record, in order |
| DepTrace.Encode | gem5/util/encode_inst_dep_trace.py:146-196 | the conversion stops at the first unreadable line |
| DepTrace.TraceRoundTripIff | gem5/util/decode_inst_dep_trace.py:154-203 | a whole trace survives printing and reading if and only if all its records are complete |
| PortBinder.BindPorts | gem5/configs/example/read_config.py:293-338 | the counters and the list of connections made are those of the specified pass; it raises exactly when the count is not half |
| PortBinder.IndicesInOrder | gem5/configs/example/read_config.py:317-334 | at every port the indices are bound in the order 0, 1, 2, ... |
| PortBinder.CountMeansAllBound | gem5/configs/example/read_config.py:336-339 | for any order: if the count is half, each connection was made, in one direction only |
| PortBinder.AllBoundIff | gem5/configs/example/read_config.py:336-339 | given the count, all connections were made if and only if no port is connected to itself |
| PortBinder.PassSucceedsIff | gem5/configs/example/read_config.py:325-334 | the pass succeeds if and only if some choice of entries, kept in that order, binds everything |
| PortBinder.CountCanHide | gem5/configs/example/read_config.py:336-339 | a sorted list whose count comes out although one connection was made in neither direction |
| PortBinder.SortedOrderCanFail | gem5/configs/example/read_config.py:314-323 | a list, sorted by object, port and index, on which the pass fails although another order of it succeeds |
| GpuLayout.CreateSystem | gem5/configs/ruby/GPU_VIPER.py:755-840 | the loops build the specified list of sequencers |
| GpuLayout.WireTokens | gem5/configs/example/apu_se.py:606-611 | token ports go to the coalescers in order and never past the last compute unit |
| GpuLayout.WireShared | gem5/configs/example/apu_se.py:622-636 | the running index of a shared cache is the quotient, and ends at the ceiling |
| GpuLayout.Wire | gem5/configs/example/apu_se.py:569-650 | counting from the end of the list finds for every CPU, compute unit and command processor its own sequencers |
| GpuTlb.WireShared | gem5/configs/common/GPUTLBConfig.py:173-187 | over real division: unit i gets the coalescer i / k and the port i % k |
| GpuTlb.SharedSlots | gem5/configs/common/GPUTLBConfig.py:173-187 | the coalescer has the number of the unit's cache and exists, and no two units share a port |
| GpuTlb.WireData | gem5/configs/common/GPUTLBConfig.py:74-172 | the slots of data TLBs; it fails exactly for one unit in the configuration that shares a TLB between two |
| GpuTlb.DataSlotsApart | gem5/configs/common/GPUTLBConfig.py:158-172 | every slot exists and no two ports of compute units meet, also for an odd number of units in pairs |
| GpuTlb.WireSecondLevel | gem5/configs/common/GPUTLBConfig.py:193-200 | the running index numbers the first-level TLBs consecutively |
| GpuTlb.SecondLevelApart | gem5/configs/common/GPUTLBConfig.py:193-200 | no two first-level TLBs share a port |
| GpuTlb.SecondLevelPorts | gem5/configs/common/GPUTLBConfig.py:193-200 | no port below the total is left free |
| Memtest.NumTesters | gem5/configs/example/memtest.py:105-116 | the sum of products is the number of testers in the tree |
| Memtest.Builder.MakeCacheLevel | gem5/configs/example/memtest.py:225-286 | a subtree adds to each level the product of its fan-outs, uses fresh names only, and leaves others alone |
| Memtest.BuildTree | gem5/configs/example/memtest.py:289 | the whole tree has exactly the computed number of testers, consecutive names, and one subsystem at the bottom |
| PeriodicCheckpoints.ScriptCheckpoints | gem5/configs/common/Simulation.py:227-261 | against any simulator, the k-th checkpoint is taken at when + k * period, and how many there are |
| PeriodicCheckpoints.WithinLimits | gem5/configs/common/Simulation.py:243-248 | all but the first are at or before the last tick and below the wanted number |
| PeriodicCheckpoints.CompleteIff | gem5/configs/common/Simulation.py:252-259 | the series is complete if and only if no period before the last is disturbed by the guest |
| PeriodicCheckpoints.GuestEndsSeries | gem5/configs/common/Simulation.py:252-259 | a stop for the guest in the second period: two checkpoints are taken although three are wanted and in time |
| Copyrights.ProcessDates | gem5/util/find_copyrights.py:98-116 | the years of all entries, ranges by the regular expression |
| Copyrights.DateStr | gem5/util/find_copyrights.py:175-199 | the loop prints the specified runs |
| Copyrights.RunsAreMaximal | gem5/util/find_copyrights.py:188-197 | the printed runs are increasing, disjoint and maximal |
| Copyrights.RunsCover | gem5/util/find_copyrights.py:188-197 | the runs hold exactly the years of the set |
| Copyrights.RoundTripIff | gem5/util/find_copyrights.py:98-199 | a set of years is read back if and only if any two years of it that follow each other have four digits |
| Copyrights.LosesTheYear1000 | gem5/util/find_copyrights.py:98-199 | of the years 999 and 1000 the latter is not read back |
| Copyrights.FourDigitRoundTrip | gem5/util/find_copyrights.py:98-199 | any set of four-digit years is read back |
| Aggregator.CopyPages | gem5/util/checkpoint_aggregator.py:102-109 | the copy loop takes the pages that are there |
| Aggregator.Aggregate | gem5/util/checkpoint_aggregator.py:58-131 | bases, merged images, padding and the announced number of pages |
| Aggregator.RelocatedByte | gem5/util/checkpoint_aggregator.py:71-109 | every byte of a full checkpoint is at its moved address |
| Aggregator.RelocatedApart | gem5/util/checkpoint_aggregator.py:71-73 | addresses of different checkpoints never meet |
| Aggregator.MergedSizeIff | gem5/util/checkpoint_aggregator.py:118-131 | the merged image has the announced size if and only if all images were full |
| Aggregator.SectionsApart | gem5/util/checkpoint_aggregator.py:56-67 | CPU sections of different checkpoints never get the same name |
| RangeSweep.IsPow2Iff | gem5/configs/dram/lat_mem_rd.py:136-138 | the bit trick is exact, on all integers |
| RangeSweep.Ranges | gem5/configs/dram/lat_mem_rd.py:143-153 | the loop ends; the sizes follow the closed form and only the last reaches the maximum |
| RangeSweep.PowersAppear | gem5/configs/dram/lat_mem_rd.py:143-153 | every power of two from 4096 up to the last size is among the sizes |
| Logroll.Fill | gem5/util/logroll.py:70-76 | the first loop fills the buffer |
| Logroll.Turn | gem5/util/logroll.py:78-79 | the second loop overwrites the oldest line |
| Logroll.Roll | gem5/util/logroll.py:52-81 | every dump, by signal or at the end, shows the last lines seen, in order |

## Left out

- Colours of the timeline and the text columns beside it: escape sequences and padding only.
- The lexer of the micro-assembler and its semantic actions: tokens are given, and trees are the result.
- Error recovery of the parser generator: the micro-assembler's error handler exits at the first error.
- MiProtocol.StepKept: states this for the caches alone; `MiDma.StepSound` has the steps with DMA devices.
- MiCoherence.InvKept: leaves out the directory's DMA transitions in the same way; `MiDma.StepSound` has them.
- MiRuns.EveryRun: covers runs of the caches alone; `MiDmaRuns.EveryRunWithDevices` is the statement with devices.
- MiDmaRuns.EveryRunWithDevices: a device read is noted when the directory takes the block for it, not when the device gets the answer, and a device write when its words are on their way to memory with nothing else to come before them. Messages to one cache may overtake each other; the configuration scripts make these buffers ordered.
- MiService.EveryRequestIsServed: progress is stated for the caches alone; with devices a run may end in a missing transition.
- How the DMA sequencer fills the block of a request: the directory and memory write the first `Len` words of it, whatever the device's offset.
- Lines of the coherence protocol other than the one modelled are taken to be independent of it.
- The C++ simulator, the other coherence protocols, and the option parsing of the scripts.
- Message bodies: byte strings in the framing model, records in the text model. The magic number at the start of a file is not modelled.
- Upgrade scripts' effects on a checkpoint's contents: only tags and order matter.
- Floating-point rounding in the GPU scripts: quotients are real numbers.
- PyStr.IntOfDecimal: `int()` is modelled for ASCII digits only.
- Aggregator.Aggregate: compression, and the copying of configuration sections other than their names and addresses. Writing is modelled as the script means it: under Python 3 its text padding and its configuration text cannot be written to files opened for bytes, nor numbers be stored in a configuration, and it raises.
- PortBinder.SortedOrderCanFail: the order is the one that `__cmp__` defines; Python 3 does not call it when sorting.
- The instruction-count branch of `scriptCheckpoints`, `benchCheckpoints` and `repeatSwitch`: easy loops.
- Signals between the two statements of a buffer update in the rolling log: they are modelled while the log waits for a line.
