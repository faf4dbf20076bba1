# Verified models of the case studies

This project models the case studies of the repository in Dafny 4.11 and proves what they promise.
`dafny verify dfyconfig.toml` checks everything. Each main theorem is about all inputs, all runs or
all interleavings; code that updates state in loops is a method or a class proved against a function,
and the promises are lemmas about that function.

- **RAVEL 0.5 and its 0.1 capsule** (`Ravel`, `Router`, `RouterBounds`, `RouterLaws`, `Capsule`, `Shortlex`,
  `Planner`, `PlannerOracle`, `CompiledPlanner`, `WordBits`, `Sha256`, `Sha256Bits`, `Sha256Reference`, `FieldCodec`,
  `Checkpoint*`, `Refinement`, `Retirement`, `RetirementEdges`, `Adaptation`, `AdaptationRun`, `AdaptationEdges`,
  `StaleEdges`, `Replay`). The certified router agrees with the full scan; the planner finds the first of all
  action sequences to the goal, within its limit; the streaming SHA-256 is the one of FIPS 180-4, down to the bits
  of its word functions and the roots behind its constants; checkpoint printer and parser undo each other, the
  parser accepts nothing else, and every byte has its place; an adaptation is exactly the births, passes and
  retirements that its objective asks for and never disturbs a protected base; retirement is a faithful deletion
  that keeps coverage; balanced replay covers every stratum and then every expert.
- **EdgeStream** (`Words`, `EdgeCrc`, `EdgeCrcTable`, `EdgeTelemetry`, `EdgeTrace`, `EdgeParser`, `EdgeFrames`,
  `EdgeHistory`, `EdgeLines`, `EdgeProcessor`). The bounded-buffer parser does not depend on chunking, the arrays
  refine a map of devices, what is printed is a function of the bytes and the lines before, with every alarm at once
  when it is due, and the table CRC is the bitwise one and detects bursts of four bytes.
- **CacheForge** (`CacheModel`, `CacheSafety`, `CacheRequests`, `CacheProgress`, `CacheRecency`, `CacheWindows`,
  `CacheReports`, `CacheCheckpoint`, `CacheSimulator`). Invariants of whole runs under an arbitrary policy, what each
  policy evicts in terms of the list of all accesses, what a request holds, a capacity bound under which no request
  fails, and transparent checkpoints.
- **Go gateway** (`Gateway`, `GatewayPolicy`, `GatewayOrders`). The worker pool as a state machine over its atomic
  steps: conservation, no deadlock, bounded runs, the stable sort of the generated policy, and exactly which answers
  can be given.
- **Multilingual stream** (`DecimalStream`, `DecimalWritten`) and **dSense framing** (`SerialFrames`): round trips,
  agreement of the programs, and checksums that notice a change.

## What the proofs found

- Canonicalising a RAVEL model rounds the excluded bound of a cell to the nearest multiple of 2^-20
  (`case-studies/ravel/ravel_0_5.c:1311-1316`), which can be upwards. A raised bound breaks the
  certificate: `RouterBounds.CanonicalRoutingFails` gives a table on which the router then returns the
  wrong expert, and `RouterBounds.CanonicalBoundSafeIff` the exact condition, the discarded low bits
  being below one half. `Router.RoutedIsNearest` therefore holds for every stored bound that is sound.
- The Rust candidate counts digits in eight bits, so a record of more than 255 digits, which the
  reference accepts when they are mostly zeros, is rejected (`DecimalStream.ManyZerosDisagree`,
  `DecimalStream.ProgramsAgreeIff`).
- An excluded bound of a RAVEL lattice is rounded to 64 bits, held as a double and rounded again for the
  checkpoint (`case-studies/ravel/ravel_0_5.c:266-282`). C leaves open what `llround` makes of exactly
  2^63, and a freshly built model fails its own parser exactly when that is the mark for an absent bound
  and a bound is near 2^63 or above (`CheckpointLimits.DerivedAcceptedIff`).
  `CheckpointLimits.FarModelRefusedIff` gives such a model, with keys at -2^23. A pass over events
  in [-64, 63] keeps keys in that range (`Refinement.KeysStay`), so the failure needs numbers from elsewhere;
  with keys below 2^20 every model is accepted (`CheckpointLimits.DerivedModerateAccepted`).
- A checkpoint with a number that no double holds, such as 2^53 + 1 units, is accepted and prints as
  different bytes (`CheckpointRounding.OddModelChanges`); `CheckpointRounding.ReprintIff` gives the exact
  condition.
- The compiled graph is not renumbered when an expert retires, so from the second retirement on the check
  for supported edges reads stale rows. In the program's own runs this is harmless: it compiles the graph
  of a base whose experts are all anchored and adapts afterwards, so no supported edge leads to an expert
  that may retire (`AdaptationEdges.AdaptBase`, `RetirementEdges.RetireesEndNoEdge`). A graph compiled over
  experts that may retire would not be safe: `StaleEdges.StaleEdgeCut` gives a run, which the program never
  makes, in which an expert retires although another one that stays has a supported edge to it.
- Restoring a CacheForge snapshot is transparent for every policy, not only for those whose rank ends in
  the block id, because the block dictionary is always in the order of increasing ids.

## How the models relate to the code

- RAVEL 0.5 holds doubles. A finite table of doubles has a common power-of-two denominator `s`, so the
  router works on integer keys in units of 1/s and is exact for them; the capsule is the case s = 1 with
  24 listed experts. Checkpoints hold numbers as integers in units of 2^-20, as their file format does.
- The numeric parts of adaptation (residual, objective, squared errors of a refinement pass) are arbitrary
  functions, and so is what division makes of a sum and a count; the objective is at most 2^20. Everything
  that is counted or summed is exact, and events go to the expert that the proved router finds.
- EdgeStream records are collected in order; `Restarted` records only mark a restart in the trace and
  have no printed form. The 256 literals of the generated C file are proved to be the generator's output.
- CacheForge state, metrics and blocks are values held in the fields of the simulator class; a policy is
  any function of the state and the number of blocks required.
- Gateway steps are atomic channel operations, timers and the caller's cancellation, in any order; a
  select statement may take any ready case.
- Local scratch arrays of the breadth-first searches are sequences.

## Model

| member | source | states |
|---|---|---|
| Router.CellId | case-studies/ravel/ravel_0_5.c:472-483 | the cell number is built from the four axis digits, clamped with C's truncating division, and the domain flag is exact |
| Router.CellOfDigits | case-studies/ravel/ravel_0_5.c:472-483 | reading the two bits of an axis back from a cell number gives that axis digit, so table and query agree on the numbering |
| Router.CellLbBelowDist | case-studies/ravel/ravel_0_5.c:485-489 | for every query in the domain the lower bound of its cell never exceeds its distance to any expert |
| Router.SelectSmallest | case-studies/ravel/ravel_0_5.c:502-512 | the in-place partial selection sort leaves a permutation whose first positions are the least (bound, id) pairs in order |
| Router.BuildCell | case-studies/ravel/ravel_0_5.c:491-520 | a built cell lists the best experts in (bound, id) order, each once, pads with the invalid id, and stores the bound of the best expert left out |
| Router.BuildLattice | case-studies/ravel/ravel_0_5.c:491-520 | all 256 cells are such cells |
| Router.FullNearest | case-studies/ravel/ravel_0_5.c:522-532 | the full scan returns the expert of least (distance, id) and counts every expert |
| Router.NearestCharacterised | case-studies/ravel/ravel_0_5.c:522-532 | the scan's answer is the one expert that beats all others, and no other id has that property |
| Router.BuiltCellSound | case-studies/ravel/ravel_0_5.c:491-520 | the stored bound of a built cell is below the distance of every unlisted expert, for every query of the cell |
| Router.RoutedIsNearest | case-studies/ravel/ravel_0_5.c:534-561 | with any stored bound that is sound, certified or not, in the domain or not, routing returns the answer of the full scan |
| Router.RoutedNearest | case-studies/ravel/ravel_0_5.c:534-561 | the router computes that function, evaluates exactly the listed experts when certified and all of them otherwise, and fails on an id outside the model |
| RouterBounds.SafeBoundSufficient | case-studies/ravel/ravel_0_5.c:534-561 | any stored bound at or below the built one keeps routing exact for every table |
| RouterBounds.SafeBoundIff | case-studies/ravel/ravel_0_5.c:534-561 | keeping routing exact for every table and every query needs a stored bound no larger than the built one, but that a stored one is as safe as a built zero |
| RouterBounds.CanonicalBoundSafeIff | case-studies/ravel/ravel_0_5.c:1311-1316 | rounding a bound to 2^-20 keeps the certificate exactly when the discarded low bits are below one half |
| RouterBounds.CanonicalRoutingFails | case-studies/ravel/ravel_0_5.c:1311-1316 | a concrete expert table on which the canonicalised lattice routes a query to the wrong expert |
| Capsule.Experts.constructor | case-studies/ravel/ravel.c:53-62 | the generated tables satisfy the table invariant for any expert keys and weights |
| Capsule.Experts.Ref | case-studies/ravel/ravel.c:63 | the reference answer is the nearest expert with its distance and output, after 256 evaluations |
| Capsule.Experts.Run | case-studies/ravel/ravel.c:64 | the routed answer has the same expert, distance and output, after 24 evaluations when certified and 256 otherwise |
| Capsule.Experts.Compare | case-studies/ravel/ravel.c:65 | the mismatch counter of the capsule can never increase |
| Capsule.Experts.NoOverflow | case-studies/ravel/ravel.c:43-48 | partial distances stay below the 32-bit start value and partial outputs within a signed 32-bit word |
| Planner.PlanActions | case-studies/ravel/ravel_0_5.c:1386-1431 | planning succeeds exactly when the goal is reachable over supported primary edges within 32 steps; the plan is the first of all action sequences to the goal, shorter ones before longer ones and then by the smaller action at the first difference; the nodes expanded and the dead actions counted are exactly those of the nodes that come no later than the goal |
| Planner.Search | case-studies/ravel/ravel_0_5.c:1396-1418 | the queue holds each expert at most once, in breadth-first levels, and never outgrows the model |
| Planner.SearchOutcome | case-studies/ravel/ravel_0_5.c:1396-1419 | when the search stops the goal has a level exactly if it is reachable, and its level is the length of a shortest path |
| Planner.WalkCovered | case-studies/ravel/ravel_0_5.c:1399-1418 | every walk is overtaken by the search: its end is discovered no later than its length, or the frontier is at most that deep |
| Planner.Backtrace | case-studies/ravel/ravel_0_5.c:1420-1430 | following parents gives the actions in order, and gives up exactly beyond 32 steps |
| Planner.NoneUnsupported | case-studies/ravel/ravel_0_5.c:1403-1417 | the count of unsupported actions is zero exactly when every expanded expert supports all actions |
| PlannerOracle.OptimalWorldPath | case-studies/ravel/ravel_0_5.c:1433-1453 | the oracle returns the exact distance in the world graph, or the unreachable mark exactly when there is no path |
| PlannerOracle.PlanCase | case-studies/ravel/ravel_0_5.c:1466-1500 | a case finds a plan exactly when the goal expert is within 32 supported edges, the plan is the first of all action sequences to it, it is exact exactly when replaying it ends on the goal state, the oracle's distance is exact, and expansions and unknown actions are those of the nodes visited |
| PlannerOracle.ExactNeverShorter | case-studies/ravel/ravel_0_5.c:1497-1500 | a plan that lands on the goal state is no shorter than the world distance, which then exists, so the regret guard never drops a case |
| PlannerOracle.EvaluatePlanning | case-studies/ravel/ravel_0_5.c:1455-1510 | over any list of cases every counter of the evaluation is the number, length or regret of the cases it stands for, and the checksum mixes the found ones in order |
| PlannerOracle.CountsAddUp | case-studies/ravel/ravel_0_5.c:1474-1505 | every case is found or fails in exactly one way, every found plan is exact, an alias or a model failure, and belief targets lie between exact and found ones |
| CompiledPlanner.StepPredicts | case-studies/ravel/ravel_0_5.c:1252-1297 | a primary edge of the compiled graph is a prediction that rests on at least two events |
| CompiledPlanner.PlanModel | case-studies/ravel/ravel_0_5.c:1386-1431 | compiling and planning finds an answer exactly when predictions lead from start to goal within 32 actions, and then the first of all such action sequences |
| Sha256.Transform | case-studies/ravel/ravel_0_5.c:295-339 | the rolling variables compute the compression of section 6.2.2 of FIPS 180-4 |
| Sha256.Hash.Update | case-studies/ravel/ravel_0_5.c:351-360 | the running state absorbs any piece of the message; only the concatenation of the pieces matters |
| Sha256.Hash.Final | case-studies/ravel/ravel_0_5.c:362-379 | finishing yields the one-shot digest of everything absorbed |
| Sha256.Hash.Fill | case-studies/ravel/ravel_0_5.c:362-369 | marker and zeros complete the padding of section 5.1.1 of FIPS 180-4 in one block or spill into a second |
| Sha256.PadOneBlock | case-studies/ravel/ravel_0_5.c:362-371 | messages with at most 55 bytes in their last block are padded within that block |
| Sha256.PadTwoBlocks | case-studies/ravel/ravel_0_5.c:364-371 | messages with 56 to 63 bytes in their last block need a further block for the length |
| Sha256.AbsorbBlock | case-studies/ravel/ravel_0_5.c:351-360 | compressing one more block extends the fold over whole blocks |
| Sha256.HashBytes | case-studies/ravel/ravel_0_5.c:381-386 | hashing a buffer gives its digest |
| Sha256.DigestLength | case-studies/ravel/ravel_0_5.c:372-377 | a digest has 32 bytes |
| FieldCodec.DecodeOfEncode | case-studies/ravel/ravel_0_5.c:1512-1588 | fields written at their widths are read back, for every list of fields that fit |
| FieldCodec.EncodeOfDecode | case-studies/ravel/ravel_0_5.c:1512-1588 | bytes read as fields are written back unchanged, and every field fits |
| FieldCodec.DecodePrefix | case-studies/ravel/ravel_0_5.c:1553-1588 | a reader that has consumed some fields holds a prefix of what a full decoding yields |
| CheckpointFormat.ExpertBack | case-studies/ravel/ravel_0_5.c:1605-1630 | the 87 fields of an expert determine it |
| CheckpointFormat.ExpertForth | case-studies/ravel/ravel_0_5.c:1687-1721 | any 87 fields in range are the fields of the expert they describe |
| CheckpointFormat.SignedAndBack | case-studies/ravel/ravel_0_5.c:1540-1542 | signed numbers survive the trip through an unsigned field |
| CheckpointFormat.PayloadShape | case-studies/ravel/ravel_0_5.c:1595-1644 | the fields of a payload take 14 + 520 n + 50 n + 26 * 256 bytes |
| CheckpointParse.PrintSize | case-studies/ravel/ravel_0_5.c:1645-1660 | every well-formed model prints to exactly 6734 + 570 n bytes, which always fits |
| CheckpointParse.ParseOfPrint | case-studies/ravel/ravel_0_5.c:1590-1771 | parsing the printed form of a well-formed model gives that model and its identity |
| CheckpointParse.PrintOfParse | case-studies/ravel/ravel_0_5.c:1662-1771 | for every file the parser accepts, the model of its stored integers is well formed and prints as the bytes that were read |
| CheckpointParse.AcceptedIff | case-studies/ravel/ravel_0_5.c:1662-1771 | the parser accepts exactly the printed forms of the well-formed models of stored integers |
| CheckpointParse.FileOkIff | case-studies/ravel/ravel_0_5.c:1662-1695 | the header checks pass exactly for a payload behind its own header and digest |
| CheckpointWriter.ByteBuffer.Bytes | case-studies/ravel/ravel_0_5.c:1512-1516 | bytes are appended unless they do not fit or something failed before |
| CheckpointWriter.ByteBuffer.Q20 | case-studies/ravel/ravel_0_5.c:1544-1551 | a whole number of units that is out of range is refused, any other is written as a signed field |
| CheckpointWriter.ByteBuffer.ExpertRecord | case-studies/ravel/ravel_0_5.c:1603-1631 | the loops write the fields of an expert in order |
| CheckpointWriter.Serialize | case-studies/ravel/ravel_0_5.c:1590-1660 | printing succeeds exactly for 1 to 80 experts with storable numbers, and yields the printed form |
| CheckpointReader.ByteReader.Bytes | case-studies/ravel/ravel_0_5.c:1553-1557 | reading past the end fails for good and yields zeros |
| CheckpointReader.ReadExpert | case-studies/ravel/ravel_0_5.c:1685-1721 | an expert is accepted with its fields, or refused when no completion of what was read could pass |
| CheckpointReader.ReadGraphRow | case-studies/ravel/ravel_0_5.c:1722-1736 | a graph row is accepted with its edges, or refused when no completion could pass |
| CheckpointReader.ReadCell | case-studies/ravel/ravel_0_5.c:1737-1754 | a cell is accepted with distinct ids in range and a bound present exactly beyond 8 experts, or refused for good |
| CheckpointLoader.Deserialize | case-studies/ravel/ravel_0_5.c:1662-1771 | the parser with its early exits computes the parser function |
| CheckpointLoader.LoadPayload | case-studies/ravel/ravel_0_5.c:1696-1766 | so do its loops over experts, graph and cells |
| CheckpointLoader.ExpertGivesUp | case-studies/ravel/ravel_0_5.c:1687-1721 | giving up in the middle of an expert is right for the whole payload |
| CheckpointTables.CompileEdge | case-studies/ravel/ravel_0_5.c:1256-1284 | one edge of the compiled graph, with the thresholds and the 32-bit doubling of the program |
| CheckpointTables.CompileGraph | case-studies/ravel/ravel_0_5.c:1252-1297 | the compiled graph has these edges for every expert, and cleared rows for the indices behind the last one |
| CheckpointTables.FirstEdgeSound | case-studies/ravel/ravel_0_5.c:1259-1281 | a first edge exists exactly for an action seen twice and leads to the expert nearest to the prediction |
| CheckpointTables.SecondEdgeSound | case-studies/ravel/ravel_0_5.c:1263-1290 | a second edge needs a first one, is supported and never repeats it |
| CheckpointTables.EdgesPass | case-studies/ravel/ravel_0_5.c:1252-1297 | every compiled row passes the parser's checks |
| CheckpointTables.NearestVector | case-studies/ravel/ravel_0_5.c:1235-1250 | the nearest expert to a predicted observation |
| CheckpointLimits.DerivedAcceptedIff | case-studies/ravel/ravel_0_5.c:1299-1318 | a model with freshly derived tables is accepted by its own parser exactly when 2^63 is not converted to the mark for an absent bound, or no excluded bound is that large; whatever C makes of 2^63 |
| CheckpointLimits.BoundRefusedIff | case-studies/ravel/ravel_0_5.c:266-282 | an excluded bound that is rounded to 64 bits, held as a double and rounded again comes out as the mark for an absent one exactly when 2^63 is converted to that mark and the bound is within 512.5 units of 2^63 or above |
| CheckpointTables.ModerateBounds | case-studies/ravel/ravel_0_5.c:491-520 | with key coordinates below 2^20 no bound is that large |
| CheckpointLimits.DerivedModerateAccepted | case-studies/ravel/ravel_0_5.c:1299-1318 | a freshly derived model whose experts pass their checks and whose keys are below 2^20 is accepted by its own parser, whatever C makes of 2^63 |
| CheckpointLimits.FarModelRefusedIff | case-studies/ravel/ravel_0_5.c:1299-1318 | nine checked experts with keys 2^23 away give a freshly derived model that the parser refuses exactly when 2^63 is converted to the mark for an absent bound |
| CheckpointRounding.FixedIff | case-studies/ravel/ravel_0_5.c:280-282 | a double holds an integer exactly when it is a multiple of the spacing of doubles around it |
| CheckpointRounding.RoundFixed | case-studies/ravel/ravel_0_5.c:280-282 | what a double holds in place of a stored number is held exactly from then on |
| CheckpointRounding.ReprintIff | case-studies/ravel/ravel_0_5.c:1708-1766 | loading an accepted checkpoint into doubles and printing it again gives the same bytes exactly when a double holds every number in it |
| CheckpointRounding.ModerateReprints | case-studies/ravel/ravel_0_5.c:1708-1766 | numbers up to 2^53 units always come back as the same bytes |
| CheckpointRounding.OddModelChanges | case-studies/ravel/ravel_0_5.c:1708-1713 | a concrete model whose checkpoint is accepted and printed differently after loading, with the number 2^53 + 1 in a key |
| Refinement.Counters.CountAll | case-studies/ravel/ravel_0_5.c:617-653 | one pass leaves in every counter the number of its events and in every sum their exact coordinates, each event going to the expert that the router finds for it |
| Refinement.RefineOnce | case-studies/ravel/ravel_0_5.c:606-691 | every expert is re-estimated from the events whose nearest expert it is: counts, labels, links, and as key, decoder and predictions what division makes of the exact sums and counts; experts and actions without events keep theirs |
| Refinement.KeysStay | case-studies/ravel/ravel_0_5.c:682-690 | keys that lie in the domain of the events stay there over a pass |
| Refinement.Assign | case-studies/ravel/ravel_0_5.c:623-634 | the routed answer over the freshly built lattice and the full scan give the same nearest expert, never one that does not exist |
| Refinement.TopTarget | case-studies/ravel/ravel_0_5.c:663-681 | the selection loop finds the most frequent successor that is not excluded, the smallest of equals |
| Refinement.TopTwoOrdered | case-studies/ravel/ravel_0_5.c:661-681 | the two links of an action are ordered by support, distinct and in range |
| Refinement.FamilyAddsUp | case-studies/ravel/ravel_0_5.c:621-653 | the tallies by outcome, action, successor or expert add up to their whole |
| Refinement.RefinedAddsUp | case-studies/ravel/ravel_0_5.c:654-661 | after a pass the label counts and the action counts of an expert each add up to its count |
| Refinement.AllEventsAssigned | case-studies/ravel/ravel_0_5.c:621-655 | the counts of all experts add up to the number of valid events |
| Refinement.RefinedPasses | case-studies/ravel/ravel_0_5.c:654-681 | a refined expert passes the checkpoint parser's checks whenever its flags did |
| Refinement.Majority | case-studies/ravel/ravel_0_5.c:466-470 | the first label of highest count |
| Adaptation.RefinementRefines | case-studies/ravel/ravel_0_5.c:606-691 | the counting pass keeps shape, identity fields and link ranges, as adaptation needs of any pass |
| Adaptation.RefineProtected | case-studies/ravel/ravel_0_5.c:693-710 | the pass in full: anchored experts come out field for field as they went in, every other one as refined |
| Adaptation.Seed | case-studies/ravel/ravel_0_5.c:883-908 | a seeded expert sits on its event, labels it alone and is unanchored; counts, errors, transitions and the predictions of other actions come from the expert nearest to the event, generation and lineage from that expert's |
| Adaptation.WorstEvent | case-studies/ravel/ravel_0_5.c:933-942 | the unused valid event of highest residual, the first of equals |
| Adaptation.Candidate | case-studies/ravel/ravel_0_5.c:947-962 | seeded or refined candidate, never worse than the seeded one, which sits on the event; the anchored experts are unchanged in both |
| Adaptation.AddExperts | case-studies/ravel/ravel_0_5.c:910-982 | the attempts in order, each with its list, candidate and gain: the next list is the candidate exactly when it gains more than 105, and they end only after 16, at 80 experts, or when no event is bad enough; each birth from a distinct event, the old experts kept |
| Adaptation.AdaptModel | case-studies/ravel/ravel_0_5.c:1214-1232 | an adaptation is exactly its trace: the births, the two or four passes that give every expert not protected its refined form, and retirements until four, until none is left or until one is turned down; with the base protected, the first n0 experts survive field for field whenever they are anchored and their transitions are unset or below n0 |
| AdaptationRun.SelectReplay | case-studies/ravel/ravel_0_5.c:1029-1086 | at most 256 training events are replayed; balanced replay is that selection among the events as the model sees them, each with its nearest expert and its residual, so it replays one of highest residual of every pair and, unless the budget ran out, of every expert that owns an event; policy 2 replays every fourth |
| AdaptationRun.Adapt | case-studies/ravel/ravel_0_5.c:1201-1233 | selection, mixing, adaptation and the reported objective in one call, with the trace of the adaptation and the choice and coverage of the replay |
| Retirement.RemovalFaithful | case-studies/ravel/ravel_0_5.c:998-1019 | after a deletion each transition names the same expert with the same support, or is cleared if it named the victim |
| Retirement.RemovalConserves | case-studies/ravel/ravel_0_5.c:998-1019 | nothing but the victim is lost and nothing but transitions changes |
| Retirement.RemovalKeepsLinks | case-studies/ravel/ravel_0_5.c:1005-1017 | transitions stay in range for the smaller model |
| Retirement.Topology.RemoveExpert | case-studies/ravel/ravel_0_5.c:998-1019 | the in-place deletion computes that renaming and refuses base experts when asked to |
| Retirement.RetirementSafe | case-studies/ravel/ravel_0_5.c:1128-1158 | the loops decide safety: an unanchored adaptation expert that is no sole provider and ends no supported edge |
| Retirement.SafeKeepsCoverage | case-studies/ravel/ravel_0_5.c:1128-1158 | removing a safe victim leaves every label and action that had a provider with one |
| Retirement.ChooseVictim | case-studies/ravel/ravel_0_5.c:1166-1175 | the retirable expert of least support, the largest lineage of equals, the first of those; none exactly if nobody may retire |
| Retirement.Topology.ConsiderRetirements | case-studies/ravel/ravel_0_5.c:1160-1199 | at most four retirements, each of the weakest expert, safe at its time and costing at most 105 of the objective; the loop stops early only when nobody may retire or the weakest expert is turned down, which is what is counted |
| Retirement.Topology.RetireWeakest | case-studies/ravel/ravel_0_5.c:1163-1198 | one attempt removes the weakest expert, or finds nobody, or turns it down for safety or for a loss above 105, and says which |
| Retirement.RetirementsKeep | case-studies/ravel/ravel_0_5.c:1160-1199 | over a whole run nothing but the retired experts is lost, none was anchored, no label or action loses its last provider, and base and link ranges are kept |
| RetirementEdges.RetireesEndNoEdge | case-studies/ravel/ravel_0_5.c:1149-1157 | if no supported edge of the graph leads to an expert that may retire, none leads to any that does, although the graph is not renumbered between retirements |
| AdaptationEdges.CompiledEdges | case-studies/ravel/ravel_0_5.c:1252-1297 | every supported edge of a graph compiled over anchored experts leads to one of them |
| AdaptationEdges.AdaptMore | case-studies/ravel/ravel_0_5.c:1214-1232 | if all supported edges lead to the anchored base, nobody who retires in an adaptation ends one, and afterwards they still lead to the base |
| AdaptationEdges.AdaptBase | case-studies/ravel/ravel_0_5.c:2698-2718 | so it is over any number of adaptations after the graph of the base is compiled |
| RetirementEdges.FirstRetireeEndsNoEdge | case-studies/ravel/ravel_0_5.c:1149-1157 | the first retired expert ends no supported edge of the starting graph |
| RetirementEdges.Unmoved | case-studies/ravel/ravel_0_5.c:998-1004 | an expert keeps its index until it is moved to the place of a retired one |
| StaleEdges.StaleEdgeCut | case-studies/ravel/ravel_0_5.c:1149-1199 | with a graph compiled over experts that may retire, a concrete run in which the second retired expert ends a supported edge of an expert that stays |
| StaleEdges.LastPass | case-studies/ravel/ravel_0_5.c:654-681 | the starting experts of that run are what a pass makes of those the graph was compiled from |
| Retirement.RemovalKeepsBase | case-studies/ravel/ravel_0_5.c:998-1019 | deleting an unanchored expert leaves a closed anchored prefix untouched |
| Replay.SelectBalanced | case-studies/ravel/ravel_0_5.c:1048-1086 | policy 1 selects exactly min(256, count) distinct events: each pick is the best event left of its class, every stratum is tried, then every expert unless the budget is used up, then anything; so every (state, action) pair in the data and, if anything was filled up, every expert with an event has one of highest loss selected |
| Replay.FilledHighest | case-studies/ravel/ravel_0_5.c:1075-1085 | no event left out has a higher loss than one that filled the selection up |
| Replay.PickStrata | case-studies/ravel/ravel_0_5.c:1048-1063 | the 256 strata never use up the budget before the last of them |
| Replay.PickOne | case-studies/ravel/ravel_0_5.c:1052-1061 | a pick takes the first of the best unmarked events of its class and leaves the class with a top event picked |
| Replay.SelectStrided | case-studies/ravel/ravel_0_5.c:1040-1047 | policy 2 selects distinct events, every fourth one when the data has 1024 |
| Replay.AllPicked | case-studies/ravel/ravel_0_5.c:1076-1085 | a list of distinct events that misses none has as many entries as there are events |
| EdgeCrc.Crc32Slow | case-studies/edgestream/reference/edgestream_reference.c:28-38 | the bitwise loop computes the CRC of section 8 of RFC 1952 |
| EdgeCrc.CrcTable | case-studies/edgestream/generator/generate_candidate.py:10-17 | the generator's entries are the eight-step images of the bytes |
| EdgeCrc.TableStep | case-studies/edgestream/machine/edgestream_generated.c:68-74 | one table step equals eight shift-and-exclusive-or steps for every 32-bit register and byte |
| EdgeCrc.StepsLinear | case-studies/edgestream/generator/generate_candidate.py:10-17 | any number of bit steps is linear under exclusive or |
| EdgeCrcTable.Crc32Generated | case-studies/edgestream/machine/edgestream_generated.c:68-74 | the table-driven loop with the 256 literals of the C file computes the same CRC |
| EdgeCrcTable.LiteralsAreTable | case-studies/edgestream/machine/edgestream_generated.c:32-66 | the 256 literals are the table that the generator describes |
| EdgeCrcTable.XorWords | case-studies/edgestream/machine/edgestream_generated.c:68-74 | exclusive or of 32-bit words is that of the numbers they stand for |
| EdgeTelemetry.AcceptOk | case-studies/edgestream/reference/edgestream_reference.c:99-192 | a frame keeps the devices distinct, at most 64, with windows of at most eight values |
| EdgeTrace.AcceptKeeps | case-studies/edgestream/reference/edgestream_reference.c:99-192 | a frame keeps the emitted records legal for every device and the state in agreement with them |
| EdgeTrace.SilenceAlternates | case-studies/edgestream/reference/edgestream_reference.c:80-97 | between two silence alarms of a device there is a clear |
| EdgeTrace.ClearsAlternate | case-studies/edgestream/reference/edgestream_reference.c:146-153 | between two clears of a device, and before its first, there is an alarm |
| EdgeTrace.HighAlternates | case-studies/edgestream/reference/edgestream_reference.c:177-191 | between restarts the high alarms of a metric and their clears alternate |
| EdgeTrace.SequencesAdvance | case-studies/edgestream/reference/edgestream_reference.c:126-144 | consecutive accepted sequences of a device increase or are the declared rollover, unless it restarted |
| EdgeParser.ParseConcat | case-studies/edgestream/reference/edgestream_reference.c:199-248 | parsing a stream is parsing its first part and then what was left with the rest |
| EdgeParser.ChunksDoNotMatter | case-studies/edgestream/reference/edgestream_reference.c:199-248 | any pieces of at most 4065 bytes give the records, counters, devices and leftover of one unbounded parse, and at most 31 bytes stay buffered |
| EdgeParser.ChunkBoundExact | case-studies/edgestream/runner/edgestream_cli.c:79-95 | 4065 is the largest piece that always fits whatever is buffered |
| EdgeParser.EncodedTaken | case-studies/edgestream/tools/study_support.py:98-119 | an encoded frame is taken and decodes to itself |
| EdgeParser.EncodedStream | case-studies/edgestream/tools/study_support.py:98-119 | a concatenation of encoded frames yields exactly those frames, in order, and an empty buffer |
| EdgeParser.EncodedThen | case-studies/edgestream/tools/study_support.py:98-119 | encoded frames are consumed first whatever follows them |
| EdgeParser.RunLegal | case-studies/edgestream/reference/edgestream_reference.c:199-248 | the whole record stream of any run over any chunks is legal |
| EdgeProcessor.PushKeepsLastEight | case-studies/edgestream/reference/edgestream_reference.c:158-163 | the ring buffer holds the last eight accepted values, wrapped to 32 bits |
| EdgeProcessor.SumInAnyRotation | case-studies/edgestream/reference/edgestream_reference.c:164-167 | summing the slots in storage order is summing the window |
| EdgeProcessor.WindowAverage | case-studies/edgestream/reference/edgestream_reference.c:164-168 | the average is the truncated mean of the window |
| EdgeProcessor.UpdateDevice | case-studies/edgestream/reference/edgestream_reference.c:146-191 | the update of one device slot refines the update of its tracker, with the records it emits |
| EdgeProcessor.Processor.FindDevice | case-studies/edgestream/reference/edgestream_reference.c:56-78 | a device is found by id, or gets the next free slot, or the limit is reported |
| EdgeProcessor.Processor.EmitSilence | case-studies/edgestream/reference/edgestream_reference.c:80-97 | the watermark loop raises the silence alarms of exactly the devices that went silent |
| EdgeProcessor.Processor.AcceptFrame | case-studies/edgestream/reference/edgestream_reference.c:99-192 | the arrays refine the map of trackers: same records, counters and devices |
| EdgeProcessor.Processor.ProcessBytes | case-studies/edgestream/reference/edgestream_reference.c:199-248 | the buffer loop refines the parser function and drops everything when a delivery does not fit |
| EdgeProcessor.Processor.Finish | case-studies/edgestream/reference/edgestream_reference.c:250-257 | leftover bytes are reported as truncated |
| CacheSafety.AuthorizeIff | case-studies/cacheforge/src/cacheforge/authority.py:13-47 | authorisation succeeds exactly when enough unowned blocks exist, whatever the policy proposes, and then returns distinct unowned blocks |
| CacheSafety.RankedProposalLeast | case-studies/cacheforge/src/cacheforge/policies.py:20-50 | a policy that sorts by a rank ending in the block id proposes the least unowned blocks |
| CacheSafety.RankedAccepted | case-studies/cacheforge/src/cacheforge/policies.py:20-50 | such a proposal is valid exactly when enough unowned blocks exist |
| CacheSafety.RepositoryPoliciesRankById | case-studies/cacheforge/machine/generated_policy.py:80-104 | LRU, FIFO, segmented LRU and the generated policy are such policies |
| CacheSafety.AdversariesRejected | case-studies/cacheforge/src/cacheforge/policies.py:53-68 | the duplicate and the unknown-id policy are always rejected |
| CacheSafety.AccessKeeps | case-studies/cacheforge/src/cacheforge/simulator.py:91-139 | an access fails exactly when it misses in a full cache without unowned blocks; otherwise all invariants and running totals survive, a hit sets the last use of its block to now, raises its reuse by one and leaves its other fields, and a miss admits a fresh block |
| CacheSafety.MakeRoomKeeps | case-studies/cacheforge/src/cacheforge/simulator.py:112-120 | making room evicts one unowned block and nothing else |
| CacheSafety.InvValidates | case-studies/cacheforge/src/cacheforge/model.py:122-144 | the invariant implies every check of the validator |
| CacheRequests.ServeOneKeeps | case-studies/cacheforge/src/cacheforge/simulator.py:39-48 | during a request a block is owned by it exactly if its id is in the owned set, and only one access can add to a group |
| CacheRequests.TrimKeeps | case-studies/cacheforge/src/cacheforge/simulator.py:162-167 | a sliding window ends within its size and gives up exactly what left it |
| CacheRequests.ProcessKeeps | case-studies/cacheforge/src/cacheforge/simulator.py:31-73 | a request that does not fail keeps every invariant and leaves no owner behind |
| CacheRequests.RunSafe | case-studies/cacheforge/src/cacheforge/simulator.py:25-29 | so does every run under every policy |
| CacheRequests.RunFromEmpty | case-studies/cacheforge/src/cacheforge/simulator.py:25-29 | from empty: misses equal the next id and evictions plus residents, the clock equals hits plus misses, residents and peak stay within capacity, and validation passes |
| CacheProgress.BudgetFormula | case-studies/cacheforge/src/cacheforge/simulator.py:31-73 | the budget is full groups times blocks plus the window sizes |
| CacheProgress.SomeUnowned | case-studies/cacheforge/src/cacheforge/simulator.py:31-73 | within the budget a full cache always has an unowned block |
| CacheProgress.ProcessProgress | case-studies/cacheforge/src/cacheforge/simulator.py:31-73 | with distinct group names and a budget below capacity a request never fails, whatever the policy |
| CacheProgress.RunNeverRaises | case-studies/cacheforge/src/cacheforge/simulator.py:25-29 | nor does a run of such requests |
| CacheCheckpoint.RestoreSnapshot | case-studies/cacheforge/src/cacheforge/model.py:100-120 | restoring a snapshot rebuilds the whole state, index included |
| CacheCheckpoint.ResumeTransparent | case-studies/cacheforge/src/cacheforge/simulator.py:75-89 | stopping, saving, restoring and running the rest ends as the uninterrupted run, for every policy |
| CacheSimulator.Simulator.AuthorizeEviction | case-studies/cacheforge/src/cacheforge/authority.py:13-33 | the counters and the fallback of the authority |
| CacheSimulator.Simulator.Access | case-studies/cacheforge/src/cacheforge/simulator.py:91-139 | the access method computes the access function on state and metrics |
| CacheSimulator.Simulator.AdvanceSliding | case-studies/cacheforge/src/cacheforge/simulator.py:149-167 | the window loop computes the window function |
| CacheSimulator.Simulator.Process | case-studies/cacheforge/src/cacheforge/simulator.py:31-73 | the request method computes the request function, cancellation included |
| CacheSimulator.Simulator.RestoreState | case-studies/cacheforge/src/cacheforge/simulator.py:83-89 | restoring fails for another policy, a missing state or an invalid one, and otherwise loads it |
| CacheSimulator.Simulator.Run | case-studies/cacheforge/src/cacheforge/simulator.py:25-29 | the run method computes the run function |
| CacheSimulator.Validate | case-studies/cacheforge/src/cacheforge/model.py:122-144 | the validator decides the structural checks |
| Gateway.StepAccounts | case-studies/go-gateway/gateway.go:77-133 | no step of any goroutine loses or duplicates a request: unsent, in flight, sent and dropped always make up the input order |
| Gateway.StepKeeps | case-studies/go-gateway/gateway.go:77-133 | every step keeps the whole invariant |
| Gateway.Outcomes | case-studies/go-gateway/gateway.go:122-133 | under every interleaving an answer holds the squares of exactly the requests, the incomplete error means the policy changed their number, and the cancellation error a cancellation |
| Gateway.SendsNeverBlock | case-studies/go-gateway/gateway.go:99-103 | with a policy that only reorders, a worker with a result can always send it |
| Gateway.NoDeadlock | case-studies/go-gateway/gateway.go:77-133 | until the gateway has returned something other than cancellation can happen |
| Gateway.RunsReturn | case-studies/go-gateway/gateway.go:77-133 | every run is bounded, and a run that cannot be continued has returned, with the complete answer when nothing was cancelled |
| GatewayPolicy.GeneratedOrder | case-studies/go-gateway/gateway.go:33-41 | the in-place insertion sort yields the stable sort by delay |
| GatewayPolicy.BaselineOrder | case-studies/go-gateway/gateway.go:29 | the baseline returns a fresh copy in the same order and leaves its input alone |
| GatewayPolicy.StableSortUnique | case-studies/go-gateway/gateway.go:33-41 | there is only one stable sort |
| GatewayPolicy.SameGroupsPermute | case-studies/go-gateway/gateway.go:33-41 | a stable sort is a permutation |
| GatewayPolicy.PoliciesComplete | case-studies/go-gateway/gateway.go:126-132 | with either policy the incomplete branch is unreachable and an answer is a permutation of the squared inputs |
| DecimalStream.ParseDecimal | case-studies/multilingual-stream/src/main.rs:41-60 | giving up at the first prefix above the limit decides the whole record |
| DecimalStream.Reference | case-studies/multilingual-stream/src/main.rs:62-87 | the record-splitting parser computes the statistics of the stream |
| DecimalStream.Candidate | case-studies/multilingual-stream/src/main.rs:89-140 | the one-pass parser computes them for records of at most 255 digits and rejects every other stream |
| DecimalStream.CandidateC | case-studies/multilingual-stream/c11/candidate.c:16-64 | the C parser does so for at most 10 digits |
| DecimalStream.GuardExact | case-studies/multilingual-stream/c11/candidate.c:30 | the division-based guard is exactly the limit on the next value |
| DecimalStream.LimitIff | case-studies/multilingual-stream/src/main.rs:89-140 | a digit limit accepts exactly the streams without longer records, with the same statistics |
| DecimalStream.ProgramsAgreeIff | case-studies/multilingual-stream/src/main.rs:142-148 | candidate and reference agree exactly on rejected streams and streams without longer records than 255 digits, C and Rust candidates likewise for 10 |
| DecimalStream.ManyZerosDisagree | case-studies/multilingual-stream/src/main.rs:101 | a record of 256 zeros is accepted by the reference and rejected by the candidate |
| DecimalStream.PushBounded | case-studies/multilingual-stream/src/main.rs:22-30 | the counters cannot overflow within the input limit |
| DecimalStream.FoldCounts | case-studies/multilingual-stream/src/main.rs:22-30 | the statistics count the records and add up their values |
| DecimalStream.ZeroRejected | case-studies/multilingual-stream/src/main.rs:63 | a zero byte makes some record unacceptable, so the separate test changes nothing |
| SerialFrames.FrameBytes | case-studies/dsense-desk-pet/tools/capture_dsense_binary_v5.py:107-114 | the encoder refuses payloads above 255 bytes and otherwise builds the frame |
| SerialFrames.ArrivalIndependent | case-studies/dsense-desk-pet/tools/capture_dsense_binary_v5.py:117-141 | decoding what arrived and then the retained bytes with the rest is decoding it all, retained buffer included |
| SerialFrames.FramesComeOut | case-studies/dsense-desk-pet/tools/capture_dsense_binary_v5.py:107-141 | whatever noise without a sync pair precedes, separates or follows them, exactly the frames sent come out in order |
| SerialFrames.BufferEndsEmpty | case-studies/dsense-desk-pet/tools/capture_dsense_binary_v5.py:107-141 | with nothing behind the last frame the buffer ends empty |
| SerialFrames.Receiver.ParseFrames | case-studies/dsense-desk-pet/tools/capture_dsense_binary_v5.py:117-141 | the consuming loop yields the frames of the buffer and leaves its rest |
| SerialFrames.Receiver.Capture | case-studies/dsense-desk-pet/tools/capture_dsense_binary_v5.py:185-191 | any cutting of a stream into chunks gives the frames and the retained bytes of the whole |
| Adaptation.Restore | case-studies/ravel/ravel_0_5.c:703-708 | after a pass exactly the anchored experts are put back, so every index keeps its expert's identity |
| Adaptation.HashedEvent | case-studies/ravel/ravel_0_5.c:923-932 | the first unused event going round from the hashed position; none only if all are used |
| Adaptation.NextEvent | case-studies/ravel/ravel_0_5.c:920-946 | the event tried next is unused, valid and bad enough, picked by hash or as the worst; the worst-first search stops only when no unused valid event is bad enough |
| Adaptation.Attempt | case-studies/ravel/ravel_0_5.c:947-978 | the candidate replaces the experts exactly when it gains more than 105, otherwise nothing changes |
| Retirement.LabelsSafe | case-studies/ravel/ravel_0_5.c:1131-1138 | true exactly when every label of the victim has another provider |
| Retirement.ActionsSafe | case-studies/ravel/ravel_0_5.c:1139-1148 | true exactly when every action of the victim has another provider with enough support |
| Retirement.Relink | case-studies/ravel/ravel_0_5.c:1005-1017 | the in-place rewrite of one expert's targets equals the renaming that deletes the victim |
| Replay.PickExperts | case-studies/ravel/ravel_0_5.c:1064-1074 | unless the budget is used up, every expert that owns an event gets one selected; earlier picks stay |
| Replay.PickRest | case-studies/ravel/ravel_0_5.c:1075-1085 | fills the selection to exactly the smaller of 256 and the number of events, each time with the best event left, keeping it distinct |
| CacheSimulator.Simulator.CheckProposal | case-studies/cacheforge/src/cacheforge/authority.py:36-47 | true exactly for proposals that are long enough, free of repeats, and start with enough unowned residents |
| CacheSimulator.Simulator.EvictBlock | case-studies/cacheforge/src/cacheforge/simulator.py:141-147 | eviction on the state equals the specification step, with its three failures |
| CacheSimulator.Simulator.ServePrompts | case-studies/cacheforge/src/cacheforge/simulator.py:38-48 | the prompt loop equals serving the list of prompt touches, or fails as that does |
| CacheSimulator.Simulator.ServeGenerated | case-studies/cacheforge/src/cacheforge/simulator.py:50-67 | the generated loop stops at the cancellation point and counts a cancelled request exactly when the request asks for one |
| CacheSimulator.Simulator.ReleaseBlocks | case-studies/cacheforge/src/cacheforge/simulator.py:69-72 | releasing in any order of the owned set gives the same state |
| WordBits.XorBit | case-studies/ravel/ravel_0_5.c:321-332 | bit i of an exclusive or is set exactly when it is set in one of the two |
| WordBits.AndBit | case-studies/ravel/ravel_0_5.c:329-332 | bit i of a conjunction is set exactly when it is set in both |
| WordBits.NotBit | case-studies/ravel/ravel_0_5.c:329 | bit i of a complement is set exactly when it is not set in the word, for the 32 bits |
| WordBits.RotrBit | case-studies/ravel/ravel_0_5.c:291-293 | rotating right by n moves bit i + n modulo 32 to bit i |
| Sha256Bits.ChooseBit | case-studies/ravel/ravel_0_5.c:329 | bit i of the choice is that of f where bit i of e is set, and that of g otherwise |
| Sha256Bits.MajorityBit | case-studies/ravel/ravel_0_5.c:332 | bit i of the majority is set exactly when it is set in at least two of the three words |
| Sha256Bits.SigmaBits | case-studies/ravel/ravel_0_5.c:321-331 | bit i of the four sigmas is the exclusive or of the bits at distances 7, 18 and 3, 17, 19 and 10, 2, 13 and 22, 6, 11 and 25, going round except in the shifts |
| Sha256Bits.FirstPrimes | case-studies/ravel/ravel_0_5.c:296-313 | the 64 numbers behind the round constants are exactly the primes below 312 |
| Sha256Bits.RoundConstants | case-studies/ravel/ravel_0_5.c:296-313 | each round constant is the first 32 bits of the fractional part of the cube root of its prime, by integer inequalities |
| Sha256Bits.InitialConstants | case-studies/ravel/ravel_0_5.c:342-345 | each initial word is the first 32 bits of the fractional part of the square root of its prime |
| Sha256Reference.RoundsAre | case-studies/ravel/ravel_0_5.c:327-336 | the 64 rounds are two recurrences, one for the words a and one for the words e, of which each variable is a delayed copy |
| Sha256Reference.CompressAdds | case-studies/ravel/ravel_0_5.c:325-338 | a compression adds the last four words of the two recurrences to the eight state words modulo 2^32 |
| Sha256Reference.ScheduleWord | case-studies/ravel/ravel_0_5.c:314-324 | the first 16 words are the big-endian numbers of the block, each later one the stated sum of four earlier ones modulo 2^32 |
| Sha256Reference.PadMeans | case-studies/ravel/ravel_0_5.c:362-371 | padding is the message, one 0x80, zeros, and the number of bits modulo 2^64 in eight bytes, in the fewest whole blocks |
| Sha256Reference.DigestWord | case-studies/ravel/ravel_0_5.c:373-378 | word i of the state is the number in bytes 4 i to 4 i + 3 of the digest |
| RouterLaws.NearestIs | case-studies/ravel/ravel_0_5.c:522-532 | the nearest expert is the one with no expert closer and none of smaller id as close, by the sum of the eight squared differences |
| RouterLaws.CellIs | case-studies/ravel/ravel_0_5.c:472-483 | the cell number has as base-four digits the quarters of [-64, 63] that the first four coordinates lie in, outer ones for what lies outside |
| RouterLaws.CellLbIs | case-studies/ravel/ravel_0_5.c:485-489 | the cell bound of a key is the sum of squares of what its first four coordinates lie outside the cell |
| RouterLaws.CellLbAttained | case-studies/ravel/ravel_0_5.c:485-489 | in whole units the bound is attained by a query of the cell, so that no larger one would be sound |
| RouterLaws.BuiltCellSays | case-studies/ravel/ravel_0_5.c:491-520 | the experts of a built cell come in increasing order of (bound, id), before every expert left out |
| RouterLaws.BuiltBoundSays | case-studies/ravel/ravel_0_5.c:508-517 | the stored bound is the least cell bound of the experts left out |
| RouterLaws.CertifiedSays | case-studies/ravel/ravel_0_5.c:534-561 | an answer is certified exactly when all coordinates are in the domain and some listed expert is closer than the stored bound |
| RouterLaws.OutputIs | case-studies/ravel/ravel.c:46-48 | the output of an expert is its offset and the inner product of query and weights |
| Planner.WalkIsPath | case-studies/ravel/ravel_0_5.c:1403-1413 | a walk over the primary edges is a path of existing nodes joined by actions 0 to 3 |
| Planner.WalkMet | case-studies/ravel/ravel_0_5.c:1399-1418 | no action sequence reaches its end, or passes the frontier, before the path that the search recorded |
| Planner.FirstPlan | case-studies/ravel/ravel_0_5.c:1419-1430 | the recorded path of the goal comes before every other action sequence to it |
| Planner.VisitedCount | case-studies/ravel/ravel_0_5.c:1399-1418 | the expanded nodes are those that some action sequence reaches no later than any reaches the goal, and the unknown actions are their dead ones |
| Shortlex.LexIs | case-studies/ravel/ravel_0_5.c:1403-1413 | of sequences of the same length the one with the smaller action at the first difference comes first |
| PlannerOracle.MarkIsSum | case-studies/ravel/ravel_0_5.c:1505-1507 | the mark of a case is a sum of fields in bytes of their own: states, landing state, experts, and length with case number |
| CheckpointBytes.HeaderLayout | case-studies/ravel/ravel_0_5.c:1641-1658 | the header of a printed file by byte offsets: magic, the eight limits, byte order, length and digest of the payload, and the size of the file |
| CheckpointBytes.LeadLayout | case-studies/ravel/ravel_0_5.c:1594-1597 | the first 14 bytes of the payload: number of experts, epoch, and the two limits |
| CheckpointBytes.ExpertLayout | case-studies/ravel/ravel_0_5.c:1598-1624 | every field of expert j lies at its stated offset from byte 78 + 520 j, high byte first, signed numbers modulo 2^64 |
| CheckpointBytes.RowLayout | case-studies/ravel/ravel_0_5.c:1625-1633 | the links of graph row j lie behind the experts, 50 bytes a row |
| CheckpointBytes.CellLayout | case-studies/ravel/ravel_0_5.c:1634-1640 | the ids and the bound of cell b lie behind the rows, 26 bytes a cell, the absent bound as the largest number |
| CheckpointBytes.ExpertChecks | case-studies/ravel/ravel_0_5.c:1717-1734 | the checks on an expert, flag by flag and link by link, with the program's limits |
| CheckpointBytes.EdgeChecks | case-studies/ravel/ravel_0_5.c:1735-1748 | the checks on a compiled edge: a known target with at least two events, or none at all |
| CheckpointBytes.CellChecks | case-studies/ravel/ravel_0_5.c:1750-1765 | the checks on a cell: different known experts first, the invalid id behind them, and no bound exactly up to eight experts |
| Refinement.EventChecks | case-studies/ravel/ravel_0_5.c:388-397 | the ranges of an event, field by field |
| EdgeHistory.AcceptAnswers | case-studies/edgestream/reference/edgestream_reference.c:99-192 | what is printed for a frame is the answer that the lines printed before call for, with the numbers written out: device limit, restart, duplicate, late, rollover, average of the last eight values, alarms and silences; no state but the history is needed |
| EdgeHistory.AcceptedReports | case-studies/edgestream/reference/edgestream_reference.c:146-191 | an accepted frame prints the clear, the event with the cut-off mean of the last eight wrapped values, and the alarm that the mean calls for |
| EdgeHistory.WatermarkAnswers | case-studies/edgestream/reference/edgestream_reference.c:80-97 | a watermark prints the silence alarms of the overdue devices and of no others |
| EdgeLines.RunPrints | case-studies/edgestream/reference/edgestream_reference.c:199-248 | in every run over any pieces the lines are a function of the bytes and the earlier lines |
| EdgeLines.RunAlarms | case-studies/edgestream/reference/edgestream_reference.c:177-191 | in every run a frame whose average exceeds 50000 while its metric was not high is followed at once by the high alarm, one at most 45000 while it was high by the clear, and no other line raises or clears an alarm |
| EdgeLines.HighAfter | case-studies/edgestream/reference/edgestream_reference.c:177-191 | after an accepted frame its metric is high exactly above 50000, or above 45000 if it was high before |
| EdgeLines.RunAlarmStates | case-studies/edgestream/reference/edgestream_reference.c:177-191 | after any run the alarms raised and not cleared by the lines are those that the averages ask for |
| EdgeLines.SilencesExactly | case-studies/edgestream/reference/edgestream_reference.c:80-97 | a watermark names exactly the devices heard that are not silent and were last heard, at a time other than 0, more than 60000 before it |
| EdgeLines.SilencesInOrder | case-studies/edgestream/reference/edgestream_reference.c:80-97 | and names them in the order in which they were first heard, each once |
| EdgeFrames.LookSays | case-studies/edgestream/reference/edgestream_reference.c:209-240 | what stands in front of the buffer is taken, dropped or waits, byte by byte |
| EdgeFrames.DecodeSays | case-studies/edgestream/reference/edgestream_reference.c:99-107 | the fields of a frame are the little-endian numbers at their offsets, the reading a signed 32-bit number |
| EdgeFrames.ChangeDetected | case-studies/edgestream/reference/edgestream_reference.c:28-38 | the CRC gives away any change within four neighbouring bytes, whatever stands around them |
| EdgeFrames.CorruptRefused | case-studies/edgestream/reference/edgestream_reference.c:233-239 | a frame with other bytes in four neighbouring places of its data or of its CRC is never taken |
| EdgeFrames.CrcKnown | case-studies/edgestream/reference/edgestream_reference.c:28-38 | the CRC of nothing is 0 and that of one zero byte 0xd202ef8d |
| CacheRecency.AccessHistory | case-studies/cacheforge/src/cacheforge/simulator.py:91-139 | every access extends the history by the block it went to: last use, creation and reuse of each block are its last and first place and its number of places in the list of all accesses |
| CacheRecency.RunHistory | case-studies/cacheforge/src/cacheforge/simulator.py:25-73 | after any run they are so in the list of all accesses of the run |
| CacheRecency.LruEvictsOldest | case-studies/cacheforge/src/cacheforge/policies.py:32-38 | least recently used evicts the unowned block whose last access is longest ago |
| CacheRecency.FifoEvictsFirst | case-studies/cacheforge/src/cacheforge/policies.py:20-29 | first in, first out evicts the unowned block whose first access is longest ago |
| CacheRecency.SegmentedEvicts | case-studies/cacheforge/src/cacheforge/policies.py:41-50 | segmented evicts a generated block if there is one, and within a segment the one whose last access is longest ago |
| CacheRecency.GeneratedWeight | case-studies/cacheforge/machine/generated_policy.py:12-88 | the table lookup of the generated policy is the weighted sum of the six features |
| CacheRecency.GeneratedEvicts | case-studies/cacheforge/machine/generated_policy.py:91-104 | the generated policy evicts the unowned block of greatest weight, of equals the one whose last access is longest ago |
| CacheRecency.RefusedEvictsOldest | case-studies/cacheforge/src/cacheforge/authority.py:28-34 | after a refused proposal the block whose last access is longest ago is evicted |
| CacheRecency.RunEvictsOldest | case-studies/cacheforge/src/cacheforge/simulator.py:25-120 | over a whole run under least recently used no unowned block was last touched before the victim |
| CacheWindows.TouchAt | case-studies/cacheforge/src/cacheforge/simulator.py:38-60 | the touches of a request in closed form: prompts and then generated blocks, each in every group in order, with their kinds, keys and shared marks |
| CacheWindows.GeneratedKeysDiffer | case-studies/cacheforge/src/cacheforge/simulator.py:54 | the generated blocks of a request have different keys |
| CacheWindows.ServedHolding | case-studies/cacheforge/src/cacheforge/simulator.py:149-167 | after any touches a full group holds every block touched; a sliding group has the last ones in its window and holds exactly the blocks whose last access no given-up entry followed |
| CacheWindows.RequestHolds | case-studies/cacheforge/src/cacheforge/simulator.py:31-67 | so does any request after any number of its touches, from any state between requests |
| CacheReports.AccessCounts | case-studies/cacheforge/src/cacheforge/simulator.py:98-138 | every counter after an access, in terms of the cache: hit or miss, refused or not, candidates looked at, and the peak |
| CacheReports.RunCounts | case-studies/cacheforge/src/cacheforge/simulator.py:25-73 | over any run the counters of requests, cancellations and accesses are what the requests ask for, and the peak is the present size |
| GatewayOrders.AnswersTimely | case-studies/go-gateway/gateway.go:77-133 | every answer holds the results of all requests in an order in which the first k come from the first k - 1 + w requests handed out, for w workers |
| GatewayOrders.RunFor | case-studies/go-gateway/gateway.go:77-133 | and every such order is answered by some run |
| GatewayOrders.AnswersIff | case-studies/go-gateway/gateway.go:77-133 | so exactly these answers can be given, for 1 to 8 workers and at most 32 requests |
| GatewayOrders.OneWorker | case-studies/go-gateway/gateway.go:77-133 | one worker keeps the order of the policy |
| GatewayOrders.EnoughWorkers | case-studies/go-gateway/gateway.go:77-133 | with a worker for every request any order of the results can come out |
| GatewayOrders.CancelledIff | case-studies/go-gateway/gateway.go:126-128 | a run that has returned gives the cancellation error exactly if it was cancelled before it returned |
| DecimalStream.PushedChecksum | case-studies/multilingual-stream/src/main.rs:22-30 | a value is mixed in by multiplying the checksum by 16777619 modulo 2^32 and exclusive or |
| DecimalStream.OneRecordMatters | case-studies/multilingual-stream/src/main.rs:22-30 | changing the value of one record always changes the checksum |
| DecimalStream.OrderMatters | case-studies/multilingual-stream/src/main.rs:22-30 | the checksum depends on the order of the records |
| DecimalWritten.RecordsSays | case-studies/multilingual-stream/src/main.rs:62-87 | a line ends at its first line feed and loses one carriage return there; the last one needs no end |
| DecimalWritten.WrittenRead | case-studies/multilingual-stream/src/main.rs:62-140 | numbers written one a line come back as their count, sum and checksum, if none exceeds 100000 and the stream has at most 1048576 bytes, and are rejected otherwise |
| DecimalWritten.AcceptedIff | case-studies/multilingual-stream/src/main.rs:41-87 | a stream is accepted exactly if all its records are digits, at least one, with values up to 100000 and within the digit limit |
| SerialFrames.Layout | case-studies/dsense-desk-pet/tools/capture_dsense_binary_v5.py:107-114 | an encoded frame byte by byte: the two sync bytes, type, length, payload, checksum |
| SerialFrames.ChecksumBit | case-studies/dsense-desk-pet/tools/capture_dsense_binary_v5.py:107-114 | each bit of the checksum is the parity of that bit over type, length and payload |
| SerialFrames.ChecksumDetects | case-studies/dsense-desk-pet/tools/capture_dsense_binary_v5.py:117-141 | changing one payload byte changes the checksum |
| SerialFrames.CorruptDropped | case-studies/dsense-desk-pet/tools/capture_dsense_binary_v5.py:117-141 | a frame in which one byte of type, payload or checksum has changed does not come out, and decoding goes on behind it |

## Left out

- Square roots, RMSE metrics and floating-point rounding of RAVEL, except for the rounding of stored
  numbers in `CheckpointRounding`.
- CheckpointParse.PrintOfParse: is about the integers in the file; what doubles make of them is stated by
  `CheckpointRounding.ReprintIff`.
- CheckpointParse.AcceptedIff: is about the integers in the file in the same way.
- CheckpointWriter.ByteBuffer.Q20: takes a number that has been rounded to an integer; for exactly 2^63
  units, which passes the range test of the program, C leaves the result of `llround` open and the model
  refuses the number.
- The initial training of RAVEL (`init_farthest`, `split_one`, `train_recursive`), evaluation counters,
  behaviour digests and the self-tests around them.
- Worlds, data sets and random numbers; theorems quantify over arbitrary valid events instead.
- `mix64` is an arbitrary function, so nothing is said about distinct lineages.
- `case-studies/ravel/ravel_0_4.c` and `case-studies/ravel/ravel_train.c`, which repeat these algorithms.
- The replay metrics and the selection checksum of `select_replay`.
- The experts of a RAVEL model beyond their number, which the program clears and never reads.
- PlannerOracle.EvaluatePlanning: the observations are a function of case and state; counters are unbounded.
- Adaptation.AdaptModel: takes residual, objective and refinement for the given data as functions; replay
  and mixing are added by `AdaptationRun.Adapt`; rebuilt routing tables are not part of it.
- Refinement.RefineOnce: does not model floating-point division and the squared errors; the claim is for
  every function that the division may be, and for any errors.
- EdgeProcessor.Processor.AcceptFrame: counters are unbounded where the program has 64 bits.
- EdgeStream's printing, quiet flag and checkpoint files.
- CacheSimulator.Simulator.Run: blocks are values, so aliasing between Python objects is not modelled.
- The JSON form of CacheForge snapshots, in which owners are a sorted list; metrics that restart on restore.
- `ParseTrace`, delays as durations and the digest of the Go gateway.
- `case-studies/multilingual-stream/c11/reference.c`, which depends on `fgets` and `strtoul`.
- Files, processes, serial ports, clocks and command lines of all case studies; the remaining tooling.
- Cryptographic strength: digests that differ are never claimed to exist or not to exist.
