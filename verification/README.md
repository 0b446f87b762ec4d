# A verified model of the SIMD cluster

The repository describes a vector signal processor: a cluster of SIMD groups with an issue front end, a
completion tracker, a result collector, an indexed memory engine, an instruction framer and a
permutation network; the programs that run on it (a 64-point fixed-point FFT, image filters, a byte
multiplier); and the generator of the FFT program. This project models what these parts compute and
proves it for every size, not for the sizes that the test benches use. Where a test bench and the RTL
describe the same part, the model does what the RTL does.

`dafny verify dfyconfig.toml` checks everything. The files, by area:

- **FFT.** `Ring`, `Dft`, `Fft`: the in-place radix-2 stages compute the discrete Fourier transform
  over any commutative ring. `ReferenceFft`: the nested loops over arrays. `FixedPoint`: rounding,
  clipping and the rounding error. `SimdExec`, `VectorMachine`, `Batches`, `VectorFft`: the vector
  program of sixteen-lane gathers, wrapping accumulators and scatters leaves in memory what the
  sequential loops compute.
- **Networks.** `Permutation`, `Links`, `Rearrange`, `Benes`: every control word permutes, and every
  permutation has a control word. `Median`: the nineteen-comparator selection network. `Compact`:
  compress and expand.
- **Issue and completion.** `Dispatch`, `Frontend`, `Tracker`, `Collector`, `GroupPipeline`: state
  machines under arbitrary back-pressure, each with an invariant that every cycle keeps, a statement
  over whole runs, and a class whose methods take the steps. Where a test bench accepts any choice
  (which queue head a free slot shows, which completed command is shown first), the statements hold
  for every choice, and the rotating choice of the RTL is one of them.
- **Framing.** `Framing`, `MultiFramer`: framing bundle by bundle is framing the whole stream.
- **Memory and images.** `IndexedMemory`, `Images`, `Gaussian`, `Sobel`, `Filters`, `ByteMultiply`.

Results that a reader of the code may not expect:

- The separable Gaussian differs from the exact one by at most 1; the test bench allows 2. The bound 1
  is attained (`Filters.DeviationAttained`).
- The front end never produces a dispatch conflict: it presents heads of different queues, a queue is
  an ownership context, and a group has one owner (`Frontend.EligibleIssuesAtOnce`).
- State transfers need both pipeline stages empty, so an uninterrupted sequence of execution requests
  keeps them waiting whatever the arbiter prefers (`GroupPipeline.StateTransfersWait`).
- Clipping is idle in every FFT stage exactly when the unclipped values stay in byte range
  (`FixedPoint.ClipIdleIffClipFree`); under that condition the error bound holds.

## Model

| member | source | states |
|---|---|---|
| Bits.BitReverse | tools/generate_fft64_vsp.py:187-191 | the bit loop returns the mirror image of the low bits |
| Bits.ReversedIsInvolution | tools/generate_fft64_vsp.py:187-191 | reversing twice is the identity, for every width |
| Dft.EvenOdd | tools/generate_fft64_vsp.py:249-255 | a polynomial is its even part at the square plus the point times its odd part at the square |
| Dft.Butterfly | tools/generate_fft64_vsp.py:249-255 | one butterfly gives the polynomial at a point and at its negative |
| Dft.TransformIsHorner | tools/generate_fft64_vsp.py:228-257 | the defining sum of the transform is polynomial evaluation at a power of the root |
| Fft.StagesAreRecursive | tools/generate_fft64_vsp.py:236-256 | the in-place stages compute the recursion on halves, for every butterfly operation |
| Fft.StagesComputeTransform | tools/generate_fft64_vsp.py:228-257 | on bit-reversed input the stages compute the discrete Fourier transform, for every power of two, commutative ring, root of unity and input |
| Fft.ScaledStagesComputeTransform | tools/generate_fft64_vsp.py:251-256 | halving in every stage scales the transform by one half to the number of stages |
| Fft.StagesRelated | tools/generate_fft64_vsp.py:236-256 | a relation that every butterfly carries from stage to stage relates two whole runs |
| ReferenceFft.ButterflyInPlace | tools/generate_fft64_vsp.py:242-255 | the innermost loop body is one butterfly on the two arrays and touches nothing else |
| ReferenceFft.StageInPlace | tools/generate_fft64_vsp.py:240-255 | the block and lane loops perform one stage |
| ReferenceFft.BitReversedCopy | tools/generate_fft64_vsp.py:232-233 | the input arrives in fresh arrays in bit-reversed order |
| ReferenceFft.Transform | tools/generate_fft64_vsp.py:228-257 | the loops compute the stages and record the arrays after every stage |
| ReferenceFft.ExactTransform | tools/generate_fft64_vsp.py:228-257 | with exact arithmetic the loops return the discrete Fourier transform |
| FixedPoint.RoundsToNearestUp | sim/vsp_bfp_tb.py:18-26 | shift and add the last lost bit is rounding to nearest with ties up, at every value and shift |
| FixedPoint.RoundShiftClipSaturates | tools/vsp_bfp.py:67-104 | the checked helper refuses exactly the arguments out of range; otherwise it gives the quotient rounded to nearest, or the end of the signed range that the quotient lies beyond, for every width |
| FixedPoint.ButterflyNeverRefused | tools/generate_fft64_vsp.py:249-255 | on bytes and twiddle codes within 64 the checked helper never raises, and each output is its sum over 128, rounded to nearest and saturated to the nearer end of the byte range |
| FixedPoint.UnclippedError | tools/generate_fft64_vsp.py:242-255 | without clipping, after s stages every component is within (3/2)^s - 1 of the exact halving network |
| FixedPoint.ClipIdleIffClipFree | tools/vsp_bfp.py:67-104 | clipping changes no stage if and only if the unclipped values stay bytes after every stage |
| FixedPoint.RoundingErrorBound | tools/generate_fft64_vsp.py:236-256 | the fixed-point stages keep the same bound whenever nothing clips |
| FixedPoint.SumsAreComplex | tools/generate_fft64_vsp.py:249-255 | the four integer sums are complex arithmetic on Gaussian integers |
| FixedPoint.GaussianLawful | tools/generate_fft64_vsp.py:249-255 | Gaussian integers satisfy the ring laws that the transform theorem needs |
| FixedPoint.FourPointRoot | tools/generate_fft64_vsp.py:228-257 | and contain a root of unity for four points, so the transform theorem applies to them |
| SimdExec.RoundBitSigned | sim/simd_exec_tb.cpp:195-221 | the rounding bit taken from the unsigned word rounds the signed value |
| SimdExec.NclipIsRoundShiftClip | rtl/units/simd_lane.sv:287-295 | NCLIP_S of a wrapped accumulator is the checked round-shift-clip of the true value: rounded to nearest, saturated to the nearer end |
| SimdExec.NclipUSaturates | rtl/units/simd_lane.sv:279-285 | NCLIP_U is the quotient of the unsigned accumulator rounded to nearest, and 255 beyond |
| SimdExec.ByteOperations | rtl/units/simd_lane.sv:125-200 | the saturating sum, the saturating magnitude, minimum and maximum on every pair of bytes |
| Batches.StageButterflies | tools/generate_fft64_vsp.py:202-208 | the loops list the butterflies of a stage in the order of the in-place loops |
| Batches.StageBatches | tools/generate_fft64_vsp.py:211-222 | cutting a stage into sixteens numbers the batches and keeps the order |
| Batches.MakeBatches | tools/generate_fft64_vsp.py:194-225 | all batches of all stages, numbered from zero, describe the schedule; their count is stages times batches per stage |
| Batches.BatchDistinct | tools/generate_fft64_vsp.py:209-212 | no batch crosses a stage, so its butterflies touch distinct elements |
| Batches.ScheduleIsStages | tools/generate_fft64_vsp.py:194-225 | applying the listed butterflies one by one is performing the stages |
| Batches.BatchesListSchedule | tools/generate_fft64_vsp.py:436-441 | the batches' index lists, joined, are exactly the butterflies of the schedule in order |
| Batches.MakeTables | tools/generate_fft64_vsp.py:436-441 | the three index tables that are stored list the schedule |
| VectorMachine.RunStraight | tools/generate_fft64_vsp.py:350-385 | actions that only advance the program counter run in sequence |
| VectorFft.LaneIsButterfly | tools/generate_fft64_vsp.py:362-377 | one lane of MUL, MAC, WADD and NCLIP in wrapping 32-bit accumulators is the fixed-point butterfly, on every byte and twiddle code |
| VectorFft.DistinctApply | tools/generate_fft64_vsp.py:354-381 | butterflies on distinct elements, applied one by one, act as if read first and written afterwards |
| VectorFft.ScattersApply | tools/generate_fft64_vsp.py:378-381 | the four scatters leave in memory the array with the whole batch applied |
| VectorFft.PassAppliesBatch | tools/generate_fft64_vsp.py:350-385 | one pass of the loop applies one batch and keeps the index and twiddle tables |
| VectorFft.PassesApplyBatches | tools/generate_fft64_vsp.py:350-386 | after k passes memory holds the array with the first k batches applied |
| VectorFft.ProgramComputesStages | tools/generate_fft64_vsp.py:326-396 | run to END, the program leaves exactly the array of the sequential stages and the raised block exponent, for any bytes and twiddle codes |
| VectorFft.StoredTablesAreIndices | tools/generate_fft64_vsp.py:436-441 | the joined index lists in memory are the tables that the program reads |
| VectorFft.ImageIsStored | tools/generate_fft64_vsp.py:425-444 | for every sound layout, array, codes and exponents the stored image is what the program expects |
| VectorFft.IndexCellsAreBytes | tools/generate_fft64_vsp.py:436-441 | up to 256 points the index cells are bytes |
| VectorFft.Fft64Fits | tools/generate_fft64_vsp.py:24-48 | the memory map for 64 points is a sound layout with twelve batches |
| Permutations.TwoColouring | sim/benes_network_tb.cpp:75-93 | two pairings of a set have a common two-colouring that separates every pair |
| Rearrange.ColourOutputs | sim/benes_network_tb.cpp:75-93 | outputs can be divided between the two halves so that no outer switch is asked for twice |
| Rearrange.StackRealises | sim/benes_network_tb.cpp:75-93 | the recursive network realises every permutation |
| Benes.SwitchStage | rtl/interconnect/benes_network.sv:23-58 | one stage of switches, as an array loop |
| Benes.LinkStage | rtl/interconnect/benes_network.sv:23-58 | the rotated links between two stages, as an array loop that loses no wire |
| Benes.Route | sim/benes_network_tb.cpp:26-57 | the stage loop through two buffers computes the network |
| Benes.EveryControlPermutes | sim/benes_network_tb.cpp:75-93 | every control word permutes the ports, and does the same to any data |
| Benes.Rearrangeable | sim/benes_network_tb.cpp:75-93 | every permutation of 2^k ports has a control word that realises it |
| GroupPipeline.ForwardIsCommit | rtl/group/simd_group_wrapper.sv:505-580 | overlaying a producer's written lanes on the fetched rows is fetching after it has committed |
| GroupPipeline.StateWriteIsMasked | sim/simd_group_wrapper_tb.cpp:580-590 | a legal state write puts its data into the selected lanes of one row of one file; other lanes, rows and files are as before; an illegal one changes nothing; one completion either way |
| GroupPipeline.StateReadReturnsRow | rtl/group/simd_group_wrapper.sv:841-853 | a state read returns the addressed vector row with its mask, or an empty illegal record, and changes no register |
| GroupPipeline.ExecuteWritesLanes | rtl/group/simd_group_wrapper.sv:770-833 | a legal execution writes the datapath's results of the addressed rows into the lanes of its mask, or all lanes for whole-row operations, and nothing else; it completes once and returns a record exactly when it exports, reduces or rearranges; an illegal one writes and returns no data |
| GroupPipeline.CaptureSeesOlderRequests | sim/simd_group_wrapper_tb.cpp:876-1001 | captured operands are those of the state in which every older request is complete |
| GroupPipeline.CycleRefines | rtl/group/simd_group_wrapper.sv:678-856 | a cycle is invisible except for the request it accepts, which it performs |
| GroupPipeline.RunRefinesSequential | sim/simd_group_wrapper_tb.cpp:312-449 | under every request and ready pattern the sinks take, in order, a prefix of what one-at-a-time execution produces; drained, all of it, with the same register files |
| GroupPipeline.DrainsInThreeCycles | rtl/group/simd_group_wrapper.sv:327-372 | three idle cycles with ready sinks empty the pipeline from any state |
| GroupPipeline.FullRate | rtl/group/simd_group_wrapper.sv:352-372 | with ready sinks a lone execution request is accepted in every cycle |
| GroupPipeline.ArbiterRotates | rtl/group/simd_group_wrapper.sv:363-405 | whenever a request could go one is granted, of the class nearest to the rotating preference, and a class that is passed over comes nearer |
| GroupPipeline.NothingIsGranted | rtl/group/simd_group_wrapper.sv:363-405 | without a request that could go nothing is granted and the preference stays |
| GroupPipeline.HeldRecordsAreStable | sim/simd_group_wrapper_tb.cpp:595-671 | a record that its sink does not take stays as it is |
| GroupPipeline.StateTransfersWait | rtl/group/simd_group_wrapper.sv:363-372 | while execution requests keep coming no state transfer is accepted |
| GroupPipeline.GroupWrapper.Cycle | rtl/group/simd_group_wrapper.sv:678-856 | the clock edge takes the step and keeps the refinement |
| Framing.CutIsInvisible | rtl/control/vsp_uword_multi_framer.sv:157-217 | words behind END have no influence on the records |
| Framing.HeaderLength | rtl/pkg/vsp_uword_pkg.sv:118-137 | a memory or control header is followed by as many words as its length field says |
| Framing.ExtendedLength | rtl/pkg/vsp_exec_uword_pkg.sv:164-181 | an execution header of a format with an extension bit owns the next word exactly when the bit is set |
| Framing.FixedLength | rtl/pkg/vsp_exec_uword_pkg.sv:164-181 | of the other headers only format 6 owns the next word |
| Framing.RecordsAreFaithful | sim/vsp_uword_predecoder_tb.cpp:93-122 | every record is a run of words headed by its header; body words are never headers; only the last may be short, and only at the end of the stream |
| Framing.EndComesLast | sim/vsp_uword_multi_framer_tb.cpp:189-232 | an END at a record boundary is the last record |
| Framing.OnlyATailWaits | sim/vsp_uword_multi_framer_tb.cpp:165-187 | without END, framing stops only in front of an incomplete record |
| Framing.VisibleRecordsAreStable | sim/vsp_uword_multi_framer_tb.cpp:165-187 | records stay what they are while later words arrive |
| MultiFramer.Scan | rtl/control/vsp_uword_multi_framer.sv:157-220 | the scan fills the admission slots, finds END and its boundary as one-shot framing defines them |
| MultiFramer.StepKeeps | rtl/control/vsp_uword_multi_framer.sv:128-382 | every cycle keeps the agreement between buffer, delivered records and one-shot framing, whatever the pins do |
| MultiFramer.IncrementalIsOneShot | sim/vsp_uword_multi_framer_tb.cpp:123-263 | for every sequence of bundles, splits, stalls, aborts and redirects the transferred records are a prefix of the one-shot framing, and all of it when the stream ends |
| MultiFramer.FinishedInFull | sim/vsp_uword_multi_framer_tb.cpp:234-263 | a stream that comes to its end has delivered its whole one-shot framing |
| MultiFramer.SlotTransfers | rtl/control/vsp_uword_multi_framer.sv:223-238 | a slot transfers exactly when it shows a record, it and all older slots are ready, and nothing is flushed |
| MultiFramer.ReadyStreamDrains | sim/vsp_uword_multi_framer_tb.cpp:127-163 | a consumer ready for the oldest record gets every framed record, in order, within as many cycles as there are records |
| MultiFramer.BundleTaken | rtl/control/vsp_uword_multi_framer.sv:260-269 | a bundle is taken exactly when the stream is open, no END is framed and it fits behind what this cycle leaves, or while discarding |
| MultiFramer.BundleEffect | rtl/control/vsp_uword_multi_framer.sv:299-332 | a bundle that continues the stream is appended; any other raises the error flag, drops the buffer and discards up to the last bundle |
| MultiFramer.EndIsKept | rtl/control/vsp_uword_multi_framer.sv:200-209 | a framed END stops the stream and its address is kept |
| MultiFramer.DoneMeansDelivered | rtl/control/vsp_uword_multi_framer.sv:334-343 | delivery is reported exactly when the last record of a finished stream transfers |
| MultiFramer.FlushDropsStream | rtl/control/vsp_uword_multi_framer.sv:345-381 | a redirect starts over and keeps only the error flag; an abort drops the stream but not a framed END; neither transfers anything |
| MultiFramer.ClearRestarts | rtl/control/vsp_uword_multi_framer.sv:291-298 | a halted stream is cleared exactly when END is acknowledged |
| MultiFramer.StopAndHalt | rtl/control/vsp_uword_multi_framer.sv:247-254 | fetch stops exactly while the stream is stopped or an END is framed; halted is stopped and drained |
| MultiFramer.ClearNeedsHalt | rtl/control/vsp_uword_multi_framer.sv:291-298 | an acknowledgement before the stream is halted has no effect |
| MultiFramer.IncompleteTailTakesBundle | rtl/control/vsp_uword_multi_framer.sv:71-73 | three carry words are enough: a split record never blocks the bundle that completes it |
| MultiFramer.StalledRecordsStay | sim/vsp_uword_multi_framer_tb.cpp:127-163 | a stalled record stays in its slot whatever arrives behind it |
| MultiFramer.EndStopsFetch | rtl/control/vsp_uword_multi_framer.sv:44-47 | END behind the admission slots already stops fetch |
| MultiFramer.Framer.Cycle | rtl/control/vsp_uword_multi_framer.sv:384-414 | the clock edge takes the step and keeps the invariant |
| CompletionTracker.OfferIsFresh | rtl/cluster/simd_group_completion_tracker.sv:116-189 | an offered entry is free, its key is neither live nor claimed by an older slot, and no older slot has the entry |
| CompletionTracker.OfferedWhenPossible | rtl/cluster/simd_group_completion_tracker.sv:116-189 | a slot is offered an entry exactly when its fields are legal, its key is neither live nor claimed, and a free entry is left |
| CompletionTracker.CommittedIsLive | rtl/cluster/simd_group_completion_tracker.sv:453-476 | a committed offer is a live entry with all its groups pending |
| CompletionTracker.NewEntriesAreCommitted | rtl/cluster/simd_group_completion_tracker.sv:455-476 | an entry becomes live only for a valid, committed slot that was offered it |
| CompletionTracker.CompletionIsHeard | rtl/cluster/simd_group_completion_tracker.sv:246-269 | a completion with the key of a live entry from a pending group is always accepted: no longer pending, illegal exactly when the child is or its result bit disagrees, result bit as announced |
| CompletionTracker.RetirementIsHeard | rtl/cluster/simd_group_completion_tracker.sv:286-303 | a result retirement with the key of a live entry from one of its groups is always recorded |
| CompletionTracker.ErrorIsProtocolFault | rtl/cluster/simd_group_completion_tracker.sv:375-409 | the error flag is raised exactly by completions and retirements that no live command waits for as announced, illegal allocations and commits without offer, and stays until cleared |
| CompletionTracker.StepKeeps | sim/simd_group_completion_tracker_tb.cpp:651-763 | every cycle keeps the invariant, protocol faults included, whichever done entry is shown |
| CompletionTracker.HoldStaysDone | rtl/cluster/simd_group_completion_tracker.sv:306-353 | a shown but stalled report cannot change |
| CompletionTracker.ReportedExactlyOnce | sim/simd_group_completion_tracker_tb.cpp:651-763 | over every run live keys are distinct, every command is reported at most once with the exact groups, results and faults of all the completions that the pins brought for it, and none disappears unreported |
| CompletionTracker.ReleasedWhenFinished | sim/simd_group_completion_tracker_tb.cpp:706-763 | an entry is released exactly when its command is reported and every announced result has retired |
| CompletionTracker.DoneWaitsItsTurn | rtl/cluster/simd_group_completion_tracker.sv:306-388 | with the rotating choice a command whose children have all completed waits for at most one report of each other entry |
| CompletionTracker.CompleteIsReported | rtl/cluster/simd_group_completion_tracker.sv:306-388 | with a ready consumer such a command is reported within one round of the entries |
| CompletionTracker.OfferEntries | rtl/cluster/simd_group_completion_tracker.sv:119-189 | the slot loop offers entries in slot order |
| CompletionTracker.SelectDone | rtl/cluster/simd_group_completion_tracker.sv:308-351 | the rotating scan finds the first done entry after the preference |
| CompletionTracker.Tracker.Cycle | rtl/cluster/simd_group_completion_tracker.sv:390-478 | the clock edge takes the step and keeps the invariant |
| Dispatch.Arbitrate | sim/simd_issue_dispatch_wide_tb.cpp:32-90 | the slot loop meets the outcome of every slot and every group |
| Dispatch.SlotAnswers | rtl/cluster/simd_issue_dispatch.sv:65-117 | accept, reject and the four diagnostics of a slot in terms of the pins and the older acceptances |
| Dispatch.GroupAnswers | sim/simd_issue_dispatch_wide_tb.cpp:32-90 | a group is issued exactly by the accepted slot that asks for it |
| Dispatch.AcceptedAreDisjoint | sim/simd_issue_dispatch_wide_tb.cpp:32-90 | accepted masks are disjoint, owned and ready, and each group names its one slot |
| Dispatch.ExactlyOneOutcome | sim/simd_issue_dispatch_wide_tb.cpp:32-90 | a valid slot has exactly one of the five outcomes; a rejected one is malformed |
| Dispatch.OnlyOlderSlotsWin | rtl/cluster/simd_issue_dispatch.sv:61-96 | an eligible slot loses only to an older accepted slot that wants one of its groups |
| Dispatch.BlockedSlotReservesNothing | sim/simd_issue_dispatch_tb.cpp:209-232 | without a slot that is not accepted every other slot fares the same |
| Dispatch.DistinctContextsNeverConflict | rtl/cluster/simd_issue_dispatch.sv:26-28 | requests of different contexts never conflict |
| Frontend.Ring.Cycle | sim/simd_issue_queue_tb.cpp:130-149 | one queue as a ring in memory: head removed, element added, and a full queue replaced in place, in one edge |
| Frontend.RotationIsPresentable | rtl/cluster/simd_cluster_issue_frontend.sv:174-231 | the rotating selection presents heads of different queues and keeps held commands |
| Frontend.NoFreeSlotIdles | rtl/cluster/simd_cluster_issue_frontend.sv:205-228 | a head that no slot shows and that wants no locked group leaves no free slot empty, and every free slot shows a head nearer to the base |
| Frontend.LockedGroupsAreKept | rtl/cluster/simd_cluster_issue_frontend.sv:171-203 | a free slot never shows a head that wants a group of a held command that owns its groups |
| Frontend.PassedOverComesNearer | rtl/cluster/simd_cluster_issue_frontend.sv:205-228 | a head that is passed over comes nearer to the base whenever a free slot shows another |
| Frontend.QueuesMove | rtl/cluster/simd_cluster_issue_frontend.sv:314-355 | a finished head leaves, and a command joins exactly when there is room or the head leaves in the same cycle |
| Frontend.StepKeeps | sim/simd_cluster_issue_frontend_tb.cpp:108-232 | for every presentation and answer: depths respected, no queue in two slots, a slot holds the head until it is finished |
| Frontend.StepConserves | sim/simd_cluster_issue_frontend_tb.cpp:234-259 | what entered a queue is what left it followed by what it holds |
| Frontend.LeavesProperly | sim/simd_cluster_issue_frontend_tb.cpp:179-216 | an entry leaves as the head, once, issued to all its groups or rejected with credit, never both |
| Frontend.EligibleIssuesAtOnce | rtl/cluster/simd_cluster_issue_frontend.sv:34-52 | presented commands never conflict, so an eligible one issues at once to all its groups |
| Frontend.LockedIsStable | sim/simd_cluster_issue_frontend_tb.cpp:159-177 | a locked slot presents the same head until it is finished |
| Frontend.RunConserves | sim/simd_cluster_issue_frontend_tb.cpp:108-259 | over every run with any ownership, readiness, credits and choice of heads: conservation, proper departures, depths and single claims |
| Frontend.IssueFrontend.Cycle | rtl/cluster/simd_cluster_issue_frontend.sv:314-355 | the clock edge takes the step with the rotating choice and keeps all of this |
| ResultCollector.Select | sim/simd_cluster_result_collector_tb.cpp:164-171 | the scan finds the offering group nearest to the favoured one, and nothing only when none offers |
| ResultCollector.CapturesNearest | rtl/cluster/simd_cluster_result_collector.sv:78-105 | a record is captured exactly when there is room and an offer, and it is the nearest group's own response |
| ResultCollector.RunExists | rtl/cluster/simd_cluster_result_collector.sv:104-170 | every sequence of pins has its run from reset |
| ResultCollector.StalledRecordIsFrozen | sim/simd_cluster_result_collector_tb.cpp:194-204 | a record that is not taken is frozen and nothing is captured over it |
| ResultCollector.RefillsAtOnce | sim/simd_cluster_result_collector_tb.cpp:206-216 | a taken record is replaced in the same cycle while any group offers |
| ResultCollector.TakenIsSentThenHeld | sim/simd_cluster_result_collector_tb.cpp:261-301 | over every run what was captured is what was delivered followed by the buffered record |
| ResultCollector.PerGroupOrder | sim/simd_cluster_result_collector_tb.cpp:261-301 | what was delivered and buffered of a group is a prefix of what the group produced |
| ResultCollector.BoundedBypass | sim/simd_cluster_result_collector_tb.cpp:224-239 | a waiting group is passed over by fewer captures than there are groups |
| ResultCollector.ServedWithinOneRound | sim/simd_cluster_result_collector_tb.cpp:224-239 | with a ready consumer a group that keeps offering is captured within one round |
| ResultCollector.Collector.Cycle | rtl/cluster/simd_cluster_result_collector.sv:104-170 | the clock edge takes the step; the retire pulse is one-hot with sparse context and tag |
| IndexedMemory.StoreWord | sim/vsp_vector_memory_engine_16group_tb.cpp:54-60 | a strobed beat writes exactly the strobed bytes |
| IndexedMemory.LastWriterWins | rtl/memory/vsp_vector_memory_engine.sv:746-747 | after a scatter each byte is that of the last lane that addressed it, or unchanged |
| IndexedMemory.GatherAfterScatter | sim/vsp_vector_memory_engine_16group_tb.cpp:410-483 | gathering through the same index returns that winner, and the lane's own byte for distinct indices |
| IndexedMemory.Scatter | sim/vsp_vector_memory_engine_16group_tb.cpp:441-502 | aligned one-hot beats in group and lane order equal byte writes up to the first fault; the report names exactly that prefix |
| IndexedMemory.Gather | sim/vsp_vector_memory_engine_16group_tb.cpp:380-424 | completed groups hold the bytes they address; other rows are as before |
| Images.SlideReadsNeighbours | sim/simd_route_tb.cpp:136-154 | sliding in the adjacent group's lanes is reading the image further left or right |
| Images.NineTaps | sim/vsp_image_io.h:31-33 | a weighted sum over the neighbours inside the image is the sum over all nine with zeros outside |
| Gaussian.SmoothTwice | sim/gaussian3x3_separable_tb.cpp:316-373 | two roundings differ from one by at most one, for any nine integers |
| Gaussian.Block | sim/gaussian3x3_tb.cpp:252-310 | nine routed products and a narrowing give the reference pixel in every active lane |
| Sobel.NarrowRoundsToNearest | sim/sobel3x3_tb.cpp:309-327 | the reference narrowing is rounding to nearest, ties up, then saturating to the nearer end of a signed byte, and NCLIP_S computes it |
| Sobel.AdditionNeverSaturates | sim/sobel3x3_tb.cpp:329-362 | the sum of the two magnitudes is at most 254, so the saturating addition never saturates |
| Sobel.Block | sim/sobel3x3_tb.cpp:374-444 | shifted copies and wrapping differences give the reference pixel in every active lane |
| Median.ThresholdCommutes | sim/median3x3_tb.cpp:50-57 | comparing with a threshold commutes with every compare-exchange |
| Median.WireFourIsMajority | sim/median3x3_tb.cpp:50-57 | on bits, wire 4 ends with the majority of nine |
| Median.NetworkSelectsMedian | sim/median3x3_tb.cpp:204-218 | for any nine integers, duplicates included, the network keeps the values and leaves their median on wire 4 |
| Median.MedianIsUnique | sim/median3x3_tb.cpp:186-202 | nine values have one median |
| Median.MedianNetwork | sim/median3x3_tb.cpp:223-233 | MAX, MIN and PASS run the network in the active lanes and leave the others alone |
| Filters.Run | sim/median3x3_tb.cpp:235-282 | at every pixel of every image each kernel gives the rounded weighted sum over the neighbours inside the image, the two rounded gradient sizes added, or the median of the zero-padded neighbourhood |
| Filters.ReferenceAnswers | sim/vsp_image_io.h:31-33 | the reference pixels are exactly these, written on the pixel rows |
| Filters.SeparableDeviation | sim/gaussian3x3_separable_tb.cpp:380-412 | the separable result differs from the exact one by at most one at every pixel of every image |
| Filters.RunSeparable | sim/gaussian3x3_separable_tb.cpp:375-378 | the two passes keep that bound |
| Filters.DeviationAttained | sim/gaussian3x3_separable_tb.cpp:380-412 | an image on which the difference is one |
| ByteMultiply.SerialProducts | sim/mul32_microcode_tb.cpp:17-30 | one byte product per step gives the product modulo 256^n in n(n+1)/2 steps |
| ByteMultiply.DiagonalSums | sim/mul32_microcode_tb.cpp:35-49 | one diagonal per step gives the same in n steps |
| ByteMultiply.DroppedDiagonals | sim/mul32_microcode_tb.cpp:17-49 | what the kept diagonals leave out is a multiple of 256^n |
| ByteMultiply.WholeProduct | sim/mul32_microcode_tb.cpp:17-49 | with all diagonals the convolution is the whole product |
| Compact.CompressIsStable | sim/simd_compact_tb.cpp:17-38 | selected lanes land at their ranks, in their own order |
| Compact.PackedComeFromSelected | sim/simd_compact_tb.cpp:17-38 | every packed lane comes from a selected one; the rest are zero |
| Compact.ExpandAfterCompress | sim/simd_compact_tb.cpp:17-38 | expanding a compressed row gives the row with unselected lanes zeroed |
| Compact.CompressAfterExpand | sim/simd_compact_tb.cpp:17-38 | compressing an expanded row gives its first elements, as many as are selected |
| Compact.ExpandedLane | rtl/permute/simd_compact.sv:17-38 | an unselected lane of any expanded row is zero, a selected one holds the element numbered by the selected lanes below it |
| Compact.CompactLanes | rtl/permute/simd_compact.sv:17-38 | the lane loop computes both, with the low-count prefix or the mask itself as valid lanes |

## Left out

- Sobel.NarrowSigned: shift 31, where the test bench's signed divisor becomes negative, and its own 32-bit overflow at the extreme accumulators are not modelled; the arithmetic is unbounded.
- VectorFft.ProgramComputesStages: memory cells hold integers, so the statement also covers sizes whose indices exceed a byte; `VectorFft.IndexCellsAreBytes` says when they do not.
- GroupPipeline.RunRefinesSequential: the datapath and the legality check are arbitrary functions of the captured operands, so nothing is said about single operations there.
- Resets: every run starts from the reset state; a reset in the middle of a run is not modelled.
- MultiFramer.IncrementalIsOneShot: addresses are counted in words without wrap-around.
- CompletionTracker.StepKeeps: the per-context busy diagnostics are not modelled.
- Frontend.RunConserves: tag, payload, resolved and metadata fields are one opaque word.
- IndexedMemory.Scatter: unit-stride commands, register-file errors and protocol errors of the engine are not modelled.
- Cosine and sine tables, waveform synthesis, the spectrum check and the hash checks: floating point and finite constants.
- The other operations of the execution unit, reductions, mask logic and the legality tables: one-branch facts.
- The action window, route rendezvous table, route waves, sequencer and the assembler: control structures outside the five areas above.
- Cache, address translation, bus fabric and memory-mapped control: integration.
