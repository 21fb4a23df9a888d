# Lab Scheduler: a verified model

Lab Scheduler is a placement coordinator. Experiments ask for compound placements (a model, a few GPUs, a
dataset, an environment, ...); the scheduler filters resources by hard constraints, searches for the best
whole placement, reserves its capacity in one step, and then tracks assignment, completion, cancellation,
reassignment, preemption, worker loss and coordinator restarts. State is persisted in a checksummed container
and travels in checksummed frames.

The model has three parts that meet in the engine.

**Search.** `Eligibility`, `Ranking`, `Planning` and `Plans` build the placement problem of a request;
`Search` is the depth-first branch-and-bound with a bounded ranking, as a recursive definition and as the
mutating search object. Main results: the bound is admissible, pruning is safe, the search is exact
(`Search.SearchIsExact`, `Planning.PlanningIsExact`), and collapsing interchangeable candidates keeps the
optimum under stated hypotheses (`Interchange`) and loses placements without them (`Counterexamples`).
`Decisions` takes both to the placement a decision records (`Decisions.DecisionIsOptimal`).

**Engine.** `Transitions` gives every public operation as a function of the scheduler state. `Engine` holds
the object with the source's maps as fields; each method is proved to produce exactly the state its function
gives. `Ledger`, `Invariants`, `Endings`, `Commitment` and `Steps` prove that every operation with any
arguments keeps all invariants; `Decisions` says what a scheduling decision means. `Phases` cuts every
operation into at most three phases of one kind each, so that properties of runs are proved phase by phase in
`Runs`, `Units`, `Exclusivity`, `Evidence`, `Waivers` and `Crowding`; where a property can fail, the theorems on
runs are if-and-only-if with a guard over the state before each operation, and `Breaches` holds a concrete
consistent state for each failure (`Samples` builds them). `Durability`, `Validation` and `Recovery` cover
export, validation and import; `Crashes` and `Coordinator` put engine, pending exports and the file together;
`Accounting` proves which of the engine's own nine checks can never fail, and when the other two pass.
`Acceptance` says exactly which reports are accepted and what they change, `Publications` what a publication
does beside replacing the advertisement, `Versions` what the generations of resources prove.

Every operation is also described from outside, over the fields of the records and without the functions it is
made of: `Guarantees` (what a placement promises its request, and when there is one), `Factors` (what each
ranking factor measures), `Verdicts` (which reasons a rejection lists), `Effects` and `Aftermath` (what an
operation leaves behind, record by record), `Refusals` (which error is named for which defect) and `Reload` (what
recovery makes of each record).

**Formats.** `Canonical` is the text of numbers and identities, `Bytes` the little-endian integers and FNV-1a
64 (section 2, "FNV Basics", of draft-eastlake-fnv), `Codec` and `RecordCodec` the record layouts with their
writer and reader, `InventoryCodec` the typed view of resources, requests and limits, `Frames` and `Container`
the two checksummed envelopes. `Storage` takes an engine's export to its bytes and back into an engine, and
`TagOrder` says when a record's bytes are canonical. Main results: readers consume exactly what writers wrote
and accept nothing else (capability lists out of order apart), a restart from the bytes is a restart from the
export, and every single-byte change is rejected. `KnownAnswers` and `RecordAnswers` (with `Cells`) fix hashes,
envelopes, texts and one record of every kind byte by byte.

## Where the code falls short of its documentation

The code is modelled as written. Each of these has a lemma that shows the failing inputs and a statement of
when the promise does hold.

- Interchangeable candidates: the key has no identity, so requirements that share their resources may be left
  with one candidate between them; it has no NUMA domain, no root complex and no local dataset versions
  (`Counterexamples`; `Interchange.CollapseKeepsOptimum`).
- Reassignment accepts a superseded placement without asking whether its unit is free (`Breaches.UnitBreach`,
  `Units.ReassignUnits`, `Units.RunUnits`).
- A publication may change the sharing mode or the capacity of a resource under its claims
  (`Breaches.SharingBreach`, `Breaches.CapacityBreach`, `Exclusivity.PublishCovers`,
  `Exclusivity.RunExclusive`, `Crowding.RunSole`), revives a lost resource (`Publications.PublicationRevives`), and may fail after
  adopting an incarnation (`Breaches.AdoptionBreach`, `Publications.RefusedPublication`).
- A requirement that waives current evidence reserves a restored resource before its worker has published it
  again (`Breaches.WaiverBreach`, `Waivers.StepStale`, `Waivers.RunStale`).
- With no rejection reason allowed, every resource of the right class is eligible
  (`Eligibility.EligibleExactly`).
- Recovery does not write its new epoch to the file (`Crashes.UnsavedEpochRepeats`).
- The fairness product wraps at 64 bits (`Factors.FairnessWraps`, `Factors.FairnessFalls`).
- An anti-affinity constraint of a group with itself is never satisfiable
  (`Plans.SelfAntiAffinityNeverHolds`).
- The frame length check wraps at 32 bits (`Frames.OversizeIsAccepted`), the identity floor at 64
  (`Recovery.FreshAfterRecovery`), and capability lists are re-sorted on reading
  (`RecordCodec.TagsAreReordered`, `TagOrder.CanonicalExactly`).

## Model

| member | source | states |
|---|---|---|
| Search.SearchIsExact | src/engine_scheduling.cpp:715-795 | the search loses no optimum: without truncation the head is a valid selection that no valid selection beats under (raw, tie-break), and an empty ranking means that no valid selection exists |
| Search.PruningIsSafe | src/engine_scheduling.cpp:783-786 | when the break fires, no completion through the current or any later candidate can beat the best score so far, ties included (the comparison is strict) |
| Search.SmallIsComplete | src/engine_scheduling.cpp:729-739 | a search with no more full selections than it may evaluate is not truncated |
| Search.HeadIsValid | src/engine_scheduling.cpp:772-781 | truncated or not, and with any bound, only valid selections are ever ranked |
| Search.WorstIsWorst | src/engine_scheduling.cpp:772-777 | the scan of the full ranking ends on an entry that is better than no other entry |
| Search.Searcher.EvaluateLeaf | src/engine_scheduling.cpp:740-782 | one complete selection is counted, checked, scored and offered to the bounded ranking, which is updated in place |
| Search.Searcher.SearchRecursive | src/engine_scheduling.cpp:729-795 | the in-place recursion leaves the path as it found it and turns the outcome into the one of the recursive definition the exactness theorem is about |
| Ranking.BoundIsAdmissible | src/engine_scheduling.cpp:612-649 | raw score <= sum of the partial scores + cross bound, for every weight vector within bounds |
| Ranking.ScoresFitInt64 | src/engine_scheduling.cpp:511-649 | for at most 16 requirements raw scores, partial sums and pruning expressions stay within 12*16*10^9 |
| Ranking.AdditiveInRange | src/engine_scheduling.cpp:367-442 | every additive factor lies in [0, 1000000] for all inputs, also when the unsigned accelerator-fit product wraps |
| Ranking.FairnessInRange | src/engine_scheduling.cpp:594-608 | the fairness factor lies in [0, 1000000], and so does the wrapped quotient it is computed from for a known tenant |
| Ranking.ExcessInUnit | src/engine_scheduling.cpp:367-442 | even when the unsigned product of the accelerator fit wraps at 64 bits, its quotient by the memory lies in [0, 1000000] |
| Ranking.CrossInRange | src/engine_scheduling.cpp:511-611 | every cross factor lies in [0, 1000000] |
| Ranking.CountDomains | src/engine_scheduling.cpp:511-564 | the accumulating map gives the number of distinct known domains plus the unknown ones, and the largest share |
| Ranking.ScoreDatasets | src/engine_scheduling.cpp:565-592 | the nested loops with their early exit average the dataset locality of the selection |
| Ranking.MostServed | src/engine_scheduling.cpp:601-604 | the loop over the tenants finds the maximum, at least 1 |
| Ranking.ScoreFairness | src/engine_scheduling.cpp:594-608 | computes the fairness factor |
| Ranking.SumAdditive | src/engine_scheduling.cpp:511-530 | accumulates the additive totals of a selection factor by factor |
| Ranking.CrossFactors | src/engine_scheduling.cpp:511-611 | fills the cross factors; what each of them measures is stated in `Factors` |
| Ranking.ScoreCandidate | src/engine_scheduling.cpp:511-635 | the weighted score as it is accumulated equals the sum the bound is stated about; `Factors.ScoreWritten` writes that sum out |
| Ranking.ComputeCrossBound | src/engine_scheduling.cpp:637-649 | the loop sums the positive cross weights |
| Factors.LocalityMeasures | src/engine_scheduling.cpp:538-554 | locality is (m - 1) * 1000000 / (n - 1), where m is the size of the largest set of selected resources on one known host, and 1000000 for at most one resource |
| Factors.LocalityEnds | src/engine_scheduling.cpp:538-554 | it is 1000000 if and only if all resources are on one known host, and 0 if and only if no two share a known host |
| Factors.DistanceMeasures | src/engine_scheduling.cpp:556-562 | topology distance takes 250000 off for every further host, 125000 for every further rack and 62500 for every further cluster, an unknown domain counting on its own, down to 0 |
| Factors.DistanceEnds | src/engine_scheduling.cpp:556-562 | it is 1000000 if and only if the resources span one host, one rack and one cluster |
| Factors.DatasetsMeasure | src/engine_scheduling.cpp:563-592 | dataset locality is the mean over the datasets of 1000000 beside a co-located resource, 500000 with local versions and 250000 otherwise, and 1000000 without datasets |
| Factors.FairnessMeasures | src/engine_scheduling.cpp:594-608 | fairness takes off the share that the tenant's placements are of the most served tenant's; the product is taken modulo 2^64 |
| Factors.FairnessEnds | src/engine_scheduling.cpp:594-608 | an unserved tenant gets 1000000 and the most served one 0, while no product wraps |
| Factors.FairnessFalls | src/engine_scheduling.cpp:594-608 | it never rises with service while the product does not wrap |
| Factors.FairnessWraps | src/engine_scheduling.cpp:601-607 | concrete case: beyond that a tenant served more than eighteen times as often gets more |
| Factors.PriorityMeasures | src/engine_scheduling.cpp:609-611 | the priority factor is 500 for every step above -1000: 0 at -1000, 1000000 at 1000 |
| Factors.RoomMeasures | src/engine_scheduling.cpp:373-383 | occupancy and residual factor as shares of the slots after the claim, with their endpoints |
| Factors.RoomPrefersEmpty | src/engine_scheduling.cpp:373-383 | a resource with less in use never scores lower on either |
| Factors.FitMeasures | src/engine_scheduling.cpp:385-399 | the accelerator fit takes off the share of the largest accelerator's memory that is left over; an exact fit and everything it does not apply to get 1000000 |
| Factors.ReadinessMeasures | src/engine_scheduling.cpp:401-428 | model warmth and simulator readiness for every readiness and residency |
| Factors.RestMeasures | src/engine_scheduling.cpp:430-441 | fragmentation is 0 exactly when a shared claim leaves fewer free slots than it takes, reuse 1000000 exactly for resources in use by the experiment |
| Factors.ReservedIsInUse | src/engine_scheduling.cpp:103-124 | in use means: a live placement of the same experiment and another request has an active claim on the resource |
| Factors.CandidateMeasures | src/engine_scheduling.cpp:967-1003 | the factors and the partial score of a candidate, the seven additive factors with their weights |
| Factors.TotalIsSummed | src/engine_scheduling.cpp:511-530 | the additive totals are the sums over the selection |
| Factors.ScoreWritten | src/engine_scheduling.cpp:511-635 | the raw score as twelve explicit terms |
| Factors.ViewsShow | src/engine_scheduling.cpp:511-592 | what the score reads of a selected resource is its host, rack, cluster, class and local versions in the state |
| Eligibility.EligibleExactly | src/engine_scheduling.cpp:68-72 | with at least one reason allowed a resource is eligible if and only if it meets every hard constraint; with none allowed it is eligible if and only if its class matches |
| Eligibility.EvaluateResource | src/engine_scheduling.cpp:235-320 | the accumulating filter gives the verdict with the reasons in order, capped |
| Eligibility.EvaluateAuthority | src/engine_scheduling.cpp:235-268 | identity, authority and ownership reasons in order, capped |
| Eligibility.EvaluateFitness | src/engine_scheduling.cpp:269-285 | capability, health and topology reasons appended in order, capped |
| Eligibility.EvaluateSpecific | src/engine_scheduling.cpp:287-290 | the first descriptor mismatch of the class appended, capped |
| Eligibility.LargestMemory | src/engine_scheduling.cpp:93-101 | the largest memory of the resource and its accelerators |
| Eligibility.EvaluateCapacity | src/engine_scheduling.cpp:292-320 | slot, memory and occupancy reasons appended in order, capped |
| Planning.PlanningIsExact | src/engine_scheduling.cpp:958-1100 | the engine's own search problem satisfies the hypotheses of exactness: admissible bound, descending order, at least one ranked entry |
| Planning.AllCandidatesExact | src/engine_scheduling.cpp:964-1010 | the candidate list of a requirement holds exactly the eligible resources |
| Planning.ChoicesSound | src/engine_scheduling.cpp:1004-1030 | collapsing and truncation keep the order and only eligible candidates |
| Planning.SortCandidatesOrdered | src/engine_scheduling.cpp:1004-1010 | candidates are in descending order of partial score, then ascending identity |
| Plans.ReservedByOtherPlacement | src/engine_scheduling.cpp:103-124 | found exactly when another live placement of the experiment holds an active claim on the resource |
| Plans.ConsiderResource | src/engine_scheduling.cpp:967-1003 | evaluates and scores one resource for one requirement |
| Plans.CollectCandidates | src/engine_scheduling.cpp:967-1003 | the loop over the ordered map gives the eligible candidates in map order |
| Plans.CollapseCandidates | src/engine_scheduling.cpp:1011-1025 | the set of seen keys keeps the first candidate of every key |
| Plans.BuildPlan | src/engine_scheduling.cpp:964-1030 | the candidates of one requirement that the search explores |
| Plans.ValidateSelection | src/engine_scheduling.cpp:651-713 | the nested scans accept exactly the acceptable selections; `Guarantees.AcceptableIsConstrained` says which these are |
| Plans.UnknownProvesNothing | src/engine_scheduling.cpp:444-455 | an unknown domain satisfies neither an affinity nor an anti-affinity constraint |
| Plans.SelfAntiAffinityNeverHolds | src/engine_scheduling.cpp:680-695 | an anti-affinity constraint of a group with itself is never satisfiable |
| Guarantees.MeetsIsServes | src/engine_scheduling.cpp:235-320 | the hard constraints and the claim of one resource for one requirement, written out over their fields: identity lists, lifecycle, evidence, tenant, capabilities, health order, domain, descriptor, exclusivity, room, occupancy and memory |
| Guarantees.AcceptableIsConstrained | src/engine_scheduling.cpp:651-713 | a selection is acceptable if and only if its resources are distinct, affinity groups share a known domain of the scope, anti-affinity groups are in known different ones, and with experiment anti-affinity no live placement of the same experiment and another request has an active claim on any of them |
| Verdicts.ReasonsListed | src/engine_scheduling.cpp:126-320 | a rejection lists exactly the reasons that apply, each by its own condition, in the order of the checks and up to the bound; another class is a reason of its own |
| Interchange.EqualKeys | src/engine_scheduling.cpp:462-484 | equal key texts mean equal additive factors, slots, exclusivity, host, rack, cluster, owner and generation |
| Interchange.DistinctClassesAreDisjoint | src/engine_scheduling.cpp:241-243 | requirements of pairwise distinct classes have disjoint eligible resources |
| Interchange.CollapseKeepsOptimum | src/engine_scheduling.cpp:457-484 | when no resource is eligible for two requirements, scopes are host, rack or cluster, equal-key datasets agree on having local versions and no list is cut, the search over collapsed lists finds the optimum over all eligible resources |
| Prelude.SortMonotone | src/engine_scheduling.cpp:762-764 | swapping one identity for a smaller unused one makes the sorted identity vector smaller |
| Counterexamples.CollapseLosesPair | src/engine_scheduling.cpp:1011-1025 | two requirements that the same look-alike resources can serve are never placed together, however many such resources there are |
| Counterexamples.TwoGpusAreNotPlaced | src/engine_scheduling.cpp:457-484 | concrete case: two identical free GPUs and two GPU requirements have a valid placement and the engine finds none |
| Counterexamples.SameDomainIsNotPlaced | src/engine_scheduling.cpp:462-484 | concrete case: with disjoint classes and an affinity in the NUMA domain, which the key leaves out, a valid placement exists and the engine finds none |
| Counterexamples.RemoteDatasetIsChosen | src/engine_scheduling.cpp:462-484 | concrete case: the key does not see local dataset versions, and the placement found is beaten by another valid one |
| Decisions.DecisionExact | src/engine_scheduling.cpp:940-1260 | a recorded placement is a valid, sound selection of the search space which, without truncation, no valid one beats; no placement without truncation means that none is valid; the only error is a full log |
| Decisions.DecisionIsOptimal | src/engine_scheduling.cpp:940-1260 | where the collapse is harmless and the search is not truncated, the recorded placement is the best valid one over all eligible resources, and no placement means that they have no valid one |
| Decisions.CommitRecords | src/engine_scheduling.cpp:1117-1165 | the recorded placement describes the selection: identities, slots and mode of the candidates, class, generation and owner of the resources in the pre-state |
| Decisions.FirstOwnedExact | src/engine_scheduling.cpp:1177-1195 | the anchor is the first owned resource, datasets coming second |
| Guarantees.PlacedIsServed | src/engine_scheduling.cpp:940-1260 | a recorded placement serves every requirement with its own resource and share, and keeps affinity, anti-affinity and experiment anti-affinity against the placements and reservations of the state before |
| Guarantees.ServedIsValid | src/engine_scheduling.cpp:651-713 | the converse: any resources that serve all requirements and keep all constraints are a valid selection over all eligible resources |
| Guarantees.PlacedIfServed | src/engine_scheduling.cpp:940-1260 | where the collapse is harmless and the search is not truncated, a placement is found if and only if some resources serve all requirements and keep all constraints |
| Guarantees.SubmittedIsServed | src/engine_scheduling.cpp:1262-1312 | the same guarantees for the placement of a submitted request |
| Effects.ScheduleEffect | src/engine_scheduling.cpp:940-1260 | a decision field by field: a placement with reservation, booked slots, anchor, unit, request and tenant count and four new identities; or the request unplaced; or a refusal because a bound on logs or activity is reached |
| Effects.SubmitEffect | src/engine_scheduling.cpp:1262-1312 | a submission is taken up exactly when the request is valid and new, its unit is not placed and the logs have room |
| Commitment.HeadIsSound | src/engine_scheduling.cpp:1099-1102 | the chosen selection meets every hard constraint of its requirements in the pre-state and is acceptable as a unit; `Guarantees.PlacedIsServed` writes this out over the recorded placement |
| Ledger.AcquireExact | src/engine_scheduling.cpp:1144-1175 | the commit loop cannot fail half-way: with room in the pre-state and distinct resources every iteration succeeds and the counters grow by exactly the selected slots |
| Commitment.CommitShape | src/engine_scheduling.cpp:1117-1228 | a committed state field by field: fresh identities, both inserts really insert, index, request and ledger updated |
| Commitment.CommitInv | src/engine_scheduling.cpp:1117-1228 | a commit of a sound selection succeeds and keeps every invariant |
| Commitment.ScheduleInv | src/engine_scheduling.cpp:940-1260 | schedule_locked keeps every invariant, and a full log is the only error it can return |
| Engine.SchedulerEngine.AcquireSelection | src/engine_scheduling.cpp:1144-1175 | the booking loop on the resource map, with the partial bookings of a failure |
| Engine.SchedulerEngine.FindAnchor | src/engine_scheduling.cpp:1177-1195 | the two loops bind a placement to the worker of its first owned non-dataset resource, else of its first owned one |
| Engine.SchedulerEngine.RecordPlacement | src/engine_scheduling.cpp:1214-1228 | ledger, log, unit index, request and tenant are updated in place |
| Engine.SchedulerEngine.CommitSelection | src/engine_scheduling.cpp:1117-1228 | the commit of a selection, in place |
| Engine.SchedulerEngine.BuildPlans | src/engine_scheduling.cpp:958-1038 | the plans of all requirements, and whether each has a candidate |
| Engine.SchedulerEngine.SearchPlans | src/engine_scheduling.cpp:1061-1072 | runs the search object on the plans |
| Engine.SchedulerEngine.FindRanking | src/engine_scheduling.cpp:958-1097 | planning and search together |
| Engine.SchedulerEngine.CheckBounds | src/engine_scheduling.cpp:1103-1115 | the four log and activity bounds |
| Engine.SchedulerEngine.ScheduleLocked | src/engine_scheduling.cpp:940-1260 | schedule_locked in place |
| Engine.SchedulerEngine.SubmitRequest | src/engine_scheduling.cpp:1262-1312 | submit_request in place, with its checks in order |
| Ledger.ReleaseExact | src/engine_state.cpp:58-69 | when every resource holds at least what is claimed, a release subtracts exactly the claims: the clamp never acts |
| Invariants.ReleaseBalanced | src/engine_state.cpp:53-73 | in every consistent state releasing an active reservation keeps reserved slots equal to the active claims, without clamping |
| Invariants.TerminateInv | src/engine_lifecycle.cpp:11-68 | ending a placement keeps every invariant and changes records only in state, reserved slots and links |
| Endings.SweepExact | src/engine_lifecycle.cpp:354-364 | a sweep ends exactly the picked live placements |
| Endings.SweepSettles | src/engine_lifecycle.cpp:354-364 | and settles exactly their reservations, once |
| Endings.LossIsComplete | src/engine_state.cpp:132-204 | after a worker loss no live placement is bound to the incarnation or selects one of its resources, and those resources are lost, without authority and without reserved slots |
| Endings.LossRevokesOnce | src/engine_state.cpp:178-191 | exactly the reservations of the live placements that touched the incarnation are revoked; every other one is unchanged |
| Endings.LossIsIdempotent | src/engine_state.cpp:521-547 | an immediate second report changes nothing |
| Endings.CancelRequestInv | src/engine_lifecycle.cpp:340-372 | cancelling a request keeps every invariant and leaves no live placement of it |
| Acceptance.MarksExact | src/engine_lifecycle.cpp:70-145 | exactly which assign and start reports are accepted, the state they set, and that nothing else changes |
| Acceptance.CompletionExact | src/engine_lifecycle.cpp:147-271 | in every consistent state a completion is accepted exactly when it shows epoch, unit, generation, incarnation, resource set (as a multiset) and resource generations of a live placement without a recorded completion; a refused one changes nothing |
| Acceptance.CompletionEffect | src/engine_lifecycle.cpp:273-287 | an accepted completion record by record: terminal state and mark, reservation released, exactly its slots back, request and unit detached, nothing else |
| Acceptance.CancellationEffect | src/engine_lifecycle.cpp:321-337 | an accepted cancellation record by record |
| Acceptance.EndingExact | src/engine_lifecycle.cpp:11-68 | the ending of a live placement in any of the six ways, record by record: completions and cancellations finish the request and release, interruptions queue it again and revoke |
| Aftermath.SweepEnds | src/engine_lifecycle.cpp:354-364 | a sweep record by record: exactly the picked live placements end, their slots come back, their requests and units let go |
| Aftermath.CancelRequestEffect | src/engine_lifecycle.cpp:340-372 | cancelling a request record by record |
| Aftermath.LossEffect | src/engine_state.cpp:132-204 | a worker loss record by record: which resources lose authority and what their counters become, which placements wait for reassignment, and that nothing else changes |
| Aftermath.AdoptionEffect | src/engine_state.cpp:206-248 | connecting an incarnation loses the recorded other one and records the new one |
| Effects.ReassignEffect | src/engine_lifecycle.cpp:374-439 | when a reassignment is accepted, what it ends, and that it schedules the request once more within its budget, with the next generation |
| Effects.PreemptEffect | src/engine_lifecycle.cpp:441-503 | the same for a preemption, which only schedules again if the request allows it |
| Effects.RegisterEffect | src/engine_resources.cpp:42-86 | a registration is accepted exactly when the advertisement is valid and new and there is room; the new record field by field |
| Effects.RetireEffect | src/engine_resources.cpp:165-193 | a retirement is accepted exactly for a free resource of the named generation; the record field by field |
| Effects.PublishEffect | src/engine_resources.cpp:125-155 | an accepted publication field by field, relative to the record after adoption: generation and state sequence one higher, capacity generation exactly when slots, memory or sessions changed, health generation exactly when health or readiness did |
| Effects.ControlEffect | src/engine_state.cpp:262-288 | epochs only rise, only the recorded incarnation of a worker can be lost, and a shutdown happens once |
| Refusals.CompletionCodes | src/engine_lifecycle.cpp:147-189 | which error a refused completion names, in both directions: identity, placement, epoch and unit |
| Refusals.EndedCodes | src/engine_lifecycle.cpp:190-220 | and for its generation and the state of its placement |
| Refusals.EvidenceCodes | src/engine_lifecycle.cpp:221-271 | and for worker, resources and generations; a lost resource and an inactive reservation are never reported in consistent states |
| Refusals.MarkCodes | src/engine_lifecycle.cpp:70-145 | the errors of assign and start reports |
| Refusals.CancelCodes | src/engine_lifecycle.cpp:289-320 | the errors of cancellations |
| Refusals.PreemptCodes | src/engine_lifecycle.cpp:441-470 | a preemption fails its checks with the error a cancellation would |
| Refusals.ReassignCodes | src/engine_lifecycle.cpp:374-400 | and a reassignment too, except that a cancelled target is a stale one |
| Refusals.SubmitCodes | src/engine_scheduling.cpp:1262-1312 | the errors of submissions in their order |
| Refusals.RequestDefects | src/request.cpp:103-338 | the validated part of a request: it is valid exactly when none of the listed defects is present |
| Refusals.AdvertisementDefects | src/resource.cpp:201-411 | the same for an advertisement, class by class |
| Refusals.RegisterCodes | src/engine_resources.cpp:42-70 | the errors of registrations; every defect of an advertisement is one error |
| Refusals.RetireCodes | src/engine_resources.cpp:165-180 | the errors of retirements |
| Refusals.PublishCodes | src/engine_resources.cpp:88-148 | the errors of publications in every consistent state, told from the state before adoption |
| Refusals.WorkerCodes | src/engine_state.cpp:500-530 | the errors of worker reports |
| Acceptance.SortComparesContents | src/engine_lifecycle.cpp:228-240 | sorting both identity lists before comparing compares their contents |
| Publications.PublicationAccepted | src/engine_resources.cpp:88-163 | a publication is accepted exactly when its checks hold of the state before it, counting the claims that stay through a change of incarnation; the state it leaves, accepted or refused |
| Publications.RefusedPublication | src/engine_resources.cpp:88-163 | a refused publication leaves the state alone if and only if it did not change the incarnation of its resource, or the new incarnation was the connected one already; otherwise the adoption stays |
| Breaches.AdoptionBreach | src/engine_resources.cpp:114-129 | a consistent state in which a refused publication adopts the new boot and loses the published resource |
| Publications.PublicationRevives | src/engine_resources.cpp:114-155 | an accepted publication makes even a lost resource current and authoritative, without adoption when the incarnation is unchanged |
| Engine.IdGenerator.NextValue | include/lab_scheduler/identity.hpp:135-138 | increments the 64-bit counter; the identity is new unless the counter wraps |
| Engine.IdGenerator.Observe | include/lab_scheduler/identity.hpp:145-151 | raises the counter to an observed identity |
| Engine.SchedulerEngine.ReleaseReservation | src/engine_state.cpp:53-73 | the loop over the claims, in place |
| Engine.SchedulerEngine.TerminatePlacement | src/engine_lifecycle.cpp:11-68 | terminate_placement in place |
| Engine.SchedulerEngine.TerminateSelected | src/engine_lifecycle.cpp:354-364 | the loop over all placements that ends the selected ones |
| Engine.SchedulerEngine.CheckMarkable | src/engine_lifecycle.cpp:70-102 | the checks mark_assigned and mark_running share, in order |
| Engine.SchedulerEngine.MarkAssigned | src/engine_lifecycle.cpp:70-108 | mark_assigned in place |
| Engine.SchedulerEngine.MarkRunning | src/engine_lifecycle.cpp:110-145 | mark_running in place |
| Engine.SchedulerEngine.CompareGenerations | src/engine_lifecycle.cpp:248-262 | the loop over the claimed generations |
| Engine.SchedulerEngine.CheckClaim | src/engine_lifecycle.cpp:147-271 | the fixed validation order of a completion |
| Engine.SchedulerEngine.ReportCompletion | src/engine_lifecycle.cpp:147-287 | report_completion in place |
| Engine.SchedulerEngine.CancelPlacement | src/engine_lifecycle.cpp:289-338 | cancel_placement in place |
| Engine.SchedulerEngine.CancelRequest | src/engine_lifecycle.cpp:340-372 | cancel_request in place |
| Engine.SchedulerEngine.ReassignPlacement | src/engine_lifecycle.cpp:374-439 | reassign_placement in place |
| Engine.SchedulerEngine.PreemptPlacement | src/engine_lifecycle.cpp:441-503 | preempt_placement in place |
| Engine.SchedulerEngine.InvalidateOwned | src/engine_state.cpp:139-159 | the loop that takes authority away from every resource of the incarnation and collects them |
| Engine.SchedulerEngine.InvalidateIncarnation | src/engine_state.cpp:132-204 | invalidate_worker_incarnation in place |
| Engine.SchedulerEngine.AdoptIncarnation | src/engine_state.cpp:206-248 | adopt_worker_incarnation in place |
| Engine.SchedulerEngine.WorkerConnected | src/engine_state.cpp:500-514 | worker_connected in place |
| Engine.SchedulerEngine.MarkWorkerLost | src/engine_state.cpp:521-547 | mark_worker_lost in place |
| Engine.SchedulerEngine.RegisterResource | src/engine_resources.cpp:42-86 | register_resource in place |
| Engine.SchedulerEngine.PublishResource | src/engine_resources.cpp:88-163 | publish_resource_state in place; `Effects.PublishEffect` has its result field by field |
| Engine.SchedulerEngine.RetireResource | src/engine_resources.cpp:165-193 | retire_resource in place |
| Engine.SchedulerEngine.AdoptEpoch | src/engine_state.cpp:262-278 | adopt_epoch in place |
| Engine.SchedulerEngine.BeginShutdown | src/engine_state.cpp:280-288 | begin_shutdown in place |
| Steps.StepInv | src/engine_accounting.cpp:78-279 | every operation with any arguments keeps every invariant and issues at most four identities |
| Phases.StepPhases | src/engine_lifecycle.cpp:11-503 | every operation is at most three phases of eight kinds, with consistent states between them |
| Runs.RunLedger | src/engine_accounting.cpp:83-222 | after any run: reserved slots equal the active claims and fit the capacity, placements and reservations name each other, agree on generation and resources and are live and active together, authority means Current, and generation = reassignment count + 1 within the budget of at most 16 |
| Runs.RunProgress | src/engine_lifecycle.cpp:70-145 | over any run a placement's rank never falls, terminal records never change again, recorded completions stay recorded, and a reservation leaves Active at most once |
| Runs.CompletionOnce | src/engine_lifecycle.cpp:190-197 | after an accepted completion, any run later, every further completion of that placement is refused and changes nothing |
| Versions.StepVersions | src/engine_resources.cpp:143-155 | every operation leaves a resource record as it was but for its reserved slots, or gives it a larger generation |
| Versions.RunVersions | src/engine_resources.cpp:143-155 | over any run a resource with the same generation is the same record but for its reserved slots |
| Versions.OldGenerationIsStale | src/engine_lifecycle.cpp:248-262 | an otherwise authorised completion that shows another generation of one of its resources is refused as StaleResource |
| Versions.StaleAfterPublication | src/engine_resources.cpp:143-145 | after an accepted publication a completion that shows the generation from before is refused as StaleResource |
| Versions.CompletionProvesVersions | src/engine_lifecycle.cpp:248-262 | a completion accepted with the generations its placement was granted proves, over any run in between, that its resources are the records it was granted |
| Units.PlaceUnits | src/engine_scheduling.cpp:1216-1220 | a commit keeps the unit index exact if and only if the unit was free; otherwise the unit has two live placements afterwards |
| Units.ReassignUnits | src/engine_lifecycle.cpp:374-439 | told before the call: a reassignment breaks the unit index, and leaves two live placements of the unit, exactly when it passes its checks with a dead target whose unit another placement holds, reassignments are left in the budget, the logs have room and the search space has a valid placement |
| Units.StepUnits | src/engine_lifecycle.cpp:374-439 | of all operations only such a reassignment breaks the unit index, and only it gives a unit two live placements |
| Units.RunUnits | src/engine_scheduling.cpp:1289-1301 | no unit has two live placements in any state of a run, and the index is exact in every one, if and only if no reassignment of the run doubles |
| Units.FreeRunUnits | src/engine_lifecycle.cpp:396-423 | both hold in every state of every run whose reassignments target a live placement or a free unit |
| Breaches.UnitBreach | src/engine_lifecycle.cpp:396-423 | a consistent state with an exact index whose reassignment leaves two live placements of unit (8, 9, 1) |
| Exclusivity.ExclusiveIsAlone | src/engine_accounting.cpp:118-132 | while claims cover their resources, an exclusive claim or a claim on an exclusive resource is the only active claim on it |
| Exclusivity.PublishCovers | src/engine_resources.cpp:88-163 | a publication keeps claims covering if and only if it is refused or every claim that stays through it suits the advertisement (exclusive ones are its whole capacity, and all are exclusive if it is); told before the call |
| Exclusivity.StepCovers | src/engine_scheduling.cpp:292-302 | of all operations only a publication that does not suit the staying claims ends covering |
| Exclusivity.RunExclusive | src/engine_scheduling.cpp:292-302 | claims cover their resources in every state of a run if and only if every accepted publication of the run suits the claims that stay |
| Exclusivity.PublishSole | src/engine_resources.cpp:125-148 | an accepted publication keeps exclusive claims, and claims on exclusive resources, alone if and only if it does not make a resource with two staying claims exclusive |
| Exclusivity.CommitSole | src/engine_scheduling.cpp:292-302 | a commit keeps them alone if and only if it selects no resource with an active exclusive claim |
| Exclusivity.ScheduleSole | src/engine_scheduling.cpp:940-1260 | scheduling keeps them alone if and only if the placement it would make, read off the state before it, names no resource with an active exclusive claim |
| Exclusivity.SameRunSole | src/engine_scheduling.cpp:292-302 | they are alone in every state of every run whose publications keep capacity and sharing mode of reserved resources |
| Crowding.StepSole | src/engine_scheduling.cpp:292-302 | of all operations only two kinds end this: an accepted publication that makes a resource with two staying claims exclusive, and a submission, reassignment or preemption whose best placement names a resource with an active exclusive claim |
| Crowding.RunSole | src/engine_scheduling.cpp:292-302 | they are alone in every state of a run if and only if no operation of it is of these kinds |
| Breaches.SharingBreach | src/engine_resources.cpp:125-148 | a consistent state with two shared claims whose publication as exclusive is accepted: two claims on an exclusive resource |
| Breaches.CapacityBreach | src/engine_resources.cpp:125-148 | a consistent state with one exclusive claim whose publication with one more slot is accepted, after which a submitted request is placed beside the exclusive claim |
| Evidence.PlaceStale | src/engine_scheduling.cpp:260-266 | a commit leaves every resource without authority free if and only if it selects none of them |
| Waivers.ScheduleStale | src/engine_scheduling.cpp:249-265 | scheduling leaves them free if and only if the placement it would make, read off the state before it, names none of them |
| Waivers.TemptedByRestored | src/engine_scheduling.cpp:249-265 | a resource without authority is eligible only for a requirement that waives current evidence, and only while it is Registered |
| Waivers.UniformDecides | src/engine_scheduling.cpp:249-265 | where the eligible resources of each requirement all have authority or all lack it, a placement that is made names one without authority if and only if some requirement has an eligible one |
| Waivers.StepStale | src/engine_accounting.cpp:265-276 | of all operations only a submission, reassignment or preemption that schedules such a placement reserves a resource without authority |
| Waivers.RunStale | src/engine_accounting.cpp:265-276 | resources without authority hold no reserved slots in every state of a run if and only if no operation of it schedules such a placement |
| Breaches.WaiverBreach | src/engine_recovery.cpp:62-85 | an engine restarted from an exported worker accelerator, still without authority, places a submitted request that waives evidence on it |
| Evidence.RunEvidence | src/engine_accounting.cpp:265-276 | over every run in which no requirement waives current evidence, a resource without authority holds no reserved slots |
| Accounting.BuildLedger | src/engine_accounting.cpp:18-32 | the nested loops give the active claims and their count per resource, modulo 2^32 |
| Accounting.CheckResources | src/engine_accounting.cpp:81-133 | what the five checks of resources against the ledger decide |
| Accounting.ValidateInvariants | src/engine_accounting.cpp:78-279 | what each of the nine checks decides |
| Accounting.ResourceChecksMean | src/engine_accounting.cpp:81-133 | each check of the resources passes exactly when its condition on capacity, mirrored slots, exclusivity, authority and counters holds of every resource |
| Accounting.RecordChecksMean | src/engine_accounting.cpp:134-222 | each check of placements, reservations and units passes exactly when its condition holds of every one; sorted neighbours differ exactly when the identities are distinct |
| Accounting.ChecksPass | src/engine_accounting.cpp:78-279 | every consistent state passes seven checks, the exclusive one if claims cover, and the last exactly when no resource without authority is reserved |
| Accounting.RunsPassEveryCheck | src/engine_accounting.cpp:78-279 | all nine checks pass at the end of every run from a covering state whose publications suit the staying claims and in which nothing schedules a resource without authority |
| Validation.CheckClaims | src/durable.cpp:119-136 | running totals per resource stay within capacity exactly when the final totals do |
| Validation.CheckReservations | src/durable.cpp:101-137 | the pass over the reservations |
| Validation.ValidateDurable | src/durable.cpp:28-155 | the four passes accept exactly the sound images: distinct identities, known references, counts within bounds, balanced ledger |
| Recovery.ExportIsSound | src/engine_state.cpp:477-498 | the export of a consistent state is accepted if and only if its record counts are within bounds |
| Recovery.RecoveryIsTotal | src/engine_recovery.cpp:24-153 | importing the export into a vacant engine succeeds (record by record in `Reload.ImportReloads`); the result keeps every invariant with no live placement, no active reservation and no reserved slot, one epoch later, and the counter is beyond every persisted identity |
| Recovery.FreshAfterRecovery | src/engine_recovery.cpp:147 | the counter passes every persisted identity if and only if adding one to the largest does not wrap |
| Reload.ImportReloads | src/engine_recovery.cpp:36-145 | importing an export record by record: live placements wait for reassignment and other ones are unchanged, active reservations are revoked and other ones unchanged, placed requests are queued without a placement and other states stay, and every resource is free, one generation further and, by owner and lifecycle, retired, registered or current; owners come back disconnected |
| Reload.ImportSurpasses | src/engine_recovery.cpp:41-147 | the counter is then above every identity the records name |
| Reload.ImportCodes | src/durable.cpp:28-155 | an import is refused exactly for one of the listed defects of the image or because the engine holds records, and then changes nothing |
| Recovery.ActiveTotalExact | src/durable.cpp:139-153 | listing the reservations does not change what they hold |
| Engine.SchedulerEngine.ExportState | src/engine_state.cpp:477-498 | export_state: the four loops over the ordered maps |
| Engine.SchedulerEngine.RestoreResources | src/engine_recovery.cpp:44-85 | the loop that rebuilds resources and workers and raises the identity floor |
| Engine.SchedulerEngine.RestoreRequests | src/engine_recovery.cpp:90-103 | the loop that restores requests |
| Engine.SchedulerEngine.RestorePlacements | src/engine_recovery.cpp:107-128 | the loop that restores placements as history; what becomes of each is in `Reload.ImportReloads` |
| Engine.SchedulerEngine.RestoreReservations | src/engine_recovery.cpp:134-145 | the loop that revokes active reservations |
| Engine.SchedulerEngine.RestoreAll | src/engine_recovery.cpp:41-145 | the four loops together, and the identity floor they leave |
| Engine.SchedulerEngine.ImportState | src/engine_recovery.cpp:24-153 | import_state in place: refused for unsound images, and as Busy for sound ones when the engine is not vacant; the recovered records are those of `Reload.ImportReloads` |
| Crashes.CrashFencing | src/cluster.cpp:249-293 | over runs of operations, exports, out-of-order writes and crashes, if every incarnation saves before it crashes, epochs strictly increase and an operation with an earlier epoch changes nothing |
| Crashes.CrashAdvances | src/engine_recovery.cpp:36-39 | a crash moves to a new epoch exactly when the incarnation had written out an export |
| Crashes.UnsavedEpochRepeats | src/cluster.cpp:256-270 | a second crash right after a recovery starts an incarnation with the epoch of the one that died |
| Crashes.StaleIsRejected | src/engine_state.cpp:79-92 | an operation with another epoch leaves the state unchanged |
| Crashes.RestartIsSafe | src/engine_recovery.cpp:24-153 | a restarted engine meets the starting conditions of the run theorems on units, exclusivity and evidence; requests that waived nothing still waive nothing |
| Crashes.NextInv | src/cluster.cpp:249-293 | every event keeps the relation between engine, pending exports and file |
| Coordinator.Serve | src/cluster.cpp:744-747 | one operation on the engine object is one specified step and keeps every invariant |
| Coordinator.StartCoordinator | src/cluster.cpp:249-275 | a new incarnation starts from the image if it is sound, and empty without one |
| Coordinator.Handover | src/cluster.cpp:249-293 | stopping one engine and starting the next from its export |
| Bytes.LittleRoundTrip | src/codec.cpp:7-22 | numbers that fit their width come back |
| Bytes.FromLittleRoundTrip | src/codec.cpp:47-101 | bytes come back from the number they spell |
| Bytes.HashBytes | src/canonical.cpp:23-30 | the hashing loop |
| Bytes.FnvSeedInjective | src/canonical.cpp:23-30 | different seeds stay different whatever is hashed after them: xor then multiply is a bijection modulo 2^64 |
| Bytes.FnvDetectsChange | src/canonical.cpp:23-34 | changing any one byte changes the low 32 bits of the hash, and so the hash |
| Codec.ReadsBack | src/record_codec.cpp:279-342 | a value that fits its format is read back, and the reader stands right after its bytes |
| Codec.ReadsExactly | src/record_codec.cpp:17-35 | whatever a reader accepts fits the format, and without capability entries the bytes consumed are exactly the ones the writer gives |
| Codec.ByteWriter.U16 | src/codec.cpp:9-12 | appends two bytes, low first |
| Codec.ByteWriter.U32 | src/codec.cpp:14-17 | appends four bytes |
| Codec.ByteWriter.U64 | src/codec.cpp:19-22 | appends eight bytes |
| Codec.ByteWriter.Str | src/codec.cpp:30-34 | appends the 32-bit length and the text |
| Codec.ByteWriter.Write | src/record_codec.cpp:843-875 | writes any value field by field, numbers cut to the width of their field |
| Codec.ByteReader.U8 | src/codec.cpp:47-54 | reads one byte if there is one |
| Codec.ByteReader.U32 | src/codec.cpp:72-86 | reads four bytes as two halves |
| Codec.ByteReader.U64 | src/codec.cpp:88-101 | reads eight bytes as two halves |
| Codec.ByteReader.Text | src/codec.cpp:125-140 | reads a bounded text |
| Codec.ByteReader.Read | src/record_codec.cpp:877-998 | reads a record field by field, with its bounds |
| Codec.ByteReader.ReadListing | src/record_codec.cpp:287-310 | reads a counted list and enforces its order |
| RecordCodec.ReservationRoundTrip | src/record_codec.cpp:1194-1282 | a reservation within bounds is read back as it was written |
| RecordCodec.PlacementRoundTrip | src/record_codec.cpp:1081-1192 | a placement within bounds is read back as it was written |
| RecordCodec.ReservationRowFits | src/record_codec.cpp:1215-1282 | the reader accepts a reservation exactly when it is within bounds |
| RecordCodec.PlacementRowFits | src/record_codec.cpp:1106-1192 | the reader accepts a placement exactly when it is within bounds |
| RecordCodec.LedgerFormatsArePlain | src/record_codec.cpp:1081-1282 | placements and reservations have canonical bytes |
| TagOrder.CanonicalExactly | src/record_codec.cpp:202-227 | the bytes of an accepted record are the ones the writer gives for it if and only if every capability list in them stands in ascending order |
| TagOrder.RecordsAreShallow | src/record_codec.cpp:843-998 | the layouts of resources and requests are among those this is stated for |
| RecordCodec.TagsAreReordered | src/record_codec.cpp:202-227 | capability entries in descending order are accepted and sorted, so their bytes are not canonical |
| Storage.ReachablePlacementSurvives | src/record_codec.cpp:1081-1192 | every placement of every reachable state is within the reader's bounds and is read back as it was written, given texts within bounds |
| Storage.ReachableReservationSurvives | src/record_codec.cpp:1194-1282 | the same for every reservation |
| InventoryCodec.ResourceRowBack | src/record_codec.cpp:363-425 | a resource comes back from its columns, capability set, topology and descriptors included, with the texts and fields the engine does not read |
| InventoryCodec.RequestRowBack | src/record_codec.cpp:843-1007 | a request comes back from its columns, requirements, groups and two's complement weights included |
| InventoryCodec.LimitsBack | src/record_codec.cpp:37-124 | the limits come back from their 36 columns |
| Storage.LedgerSurvivesContainer | src/persistence.cpp:18-194 | a container that holds the rows of placements and reservations gives every one of them back |
| Storage.DurableSurvives | src/persistence.cpp:18-194 | a durable state whose rows are within the reader's bounds is decoded from its container as it was: every typed resource, request, placement and reservation, the limits, the epoch and the counter |
| Storage.RestartFromBytes | src/engine_recovery.cpp:24-153 | importing what is decoded from the container of an export gives exactly the state that importing the export itself gives: consistent, quiescent, one epoch later |
| Storage.ChangedFileIsRefused | src/persistence.cpp:44-103 | no file with one changed byte is decoded to a durable state |
| Frames.DecodingIsExact | src/protocol.cpp:164-251 | decoding gives a view exactly when its type is 1 to 26 and assembling it gives the same bytes, within the bound |
| Frames.OversizeIsAccepted | src/protocol.cpp:174-179 | the length check wraps: frames of 2^32 bytes and a few more pass a bound far below their size |
| Frames.FrameDetectsChange | src/protocol.cpp:149-243 | every single-byte change to any encoded frame is rejected |
| Frames.WriteFrame | src/protocol.cpp:128-162 | encode_frame: header, payload, checksum patched in place; `KnownAnswers.FrameAnswer` has one frame byte by byte |
| Frames.PatchChecksum | src/protocol.cpp:156-160 | only the four checksum bytes change |
| Frames.ReadFrame | src/protocol.cpp:164-251 | decode_frame |
| Container.ContainerRoundTrip | src/persistence.cpp:18-194 | decoding what was encoded gives the durable state back, apart from the integrity note, if and only if counts, lengths, enums and orders are within bounds and so is the payload |
| Container.UnwrapIsExact | src/persistence.cpp:60-103 | the header checks accept exactly the wrapped payloads within the bound |
| Container.ContainerDetectsChange | src/persistence.cpp:44-103 | every single-byte change to any encoded container is rejected |
| Container.WriteContainer | src/persistence.cpp:18-58 | encode_durable_state; `KnownAnswers.ContainerAnswer` has one container byte by byte |
| Container.ReadContainer | src/persistence.cpp:60-194 | decode_durable_state |
| KnownAnswers.EmptyHash | include/lab_scheduler/canonical.hpp:14-15 | the hash of no bytes is 0xcbf29ce484222325 |
| KnownAnswers.LetterHash | src/canonical.cpp:23-34 | the hash of "a" is 0xaf63dc4c8601ec8c |
| KnownAnswers.WordHash | src/canonical.cpp:23-34 | the hash of "foobar" is 0x85944171f73967e8 |
| KnownAnswers.FrameAnswer | src/protocol.cpp:128-162 | the 40 bytes of a frame of type 7 with four bytes of payload: length, version, type, spare, correlation, epoch, payload length, checksum, payload |
| KnownAnswers.ContainerAnswer | src/persistence.cpp:18-58 | the 283 bytes of the container of an image without records: magic, format version, payload length, hash, and the payload from its format version to four empty lists |
| KnownAnswers.DecimalAnswer | src/canonical.cpp:118-138 | printed numbers digit by digit |
| KnownAnswers.IdAnswer | include/lab_scheduler/identity.hpp:36-63 | a printed resource identity letter by letter |
| KnownAnswers.KeyAnswer | src/engine_scheduling.cpp:457-501 | how the parts of keys are joined |
| Cells.RowSpelled | src/record_codec.cpp:843-875 | a record is the bytes of its columns, one after the other |
| RecordAnswers.ResourceAnswer | src/record_codec.cpp:363-425 | the bytes of one resource column by column: order, width and codes of all 33 fields and of its topology, locality, accelerators and four descriptors |
| RecordAnswers.RequirementAnswer | src/record_codec.cpp:653-712 | the bytes of one requirement, whatever its flags |
| RecordAnswers.RequestAnswer | src/record_codec.cpp:843-1007 | the bytes of one stored request, whatever its flags: requirements, groups, priority 2000 higher, weights as two's complement |
| RecordAnswers.PlacementAnswer | src/record_codec.cpp:1033-1104 | the bytes of one placement with its selected resource |
| RecordAnswers.ReservationAnswer | src/record_codec.cpp:1194-1213 | the bytes of one reservation with its claim |
| RecordAnswers.LimitAnswer | src/record_codec.cpp:37-74 | the bytes of the 36 limits in their order |
| RecordAnswers.CodeAnswers | src/record_codec.cpp:148-425 | the numbers of classes, health, readiness, lifecycles, scopes and states |
| RecordAnswers.WeightAccepted | src/record_codec.cpp:132-146 | weights are read from -1000 to 1000 |
| RecordAnswers.CapabilityAccepted | src/record_codec.cpp:202-227 | which capability names are read |
| Canonical.DecimalExact | src/canonical.cpp:140-160 | parsing succeeds exactly on the printer's outputs |
| Canonical.DecimalSignedExact | src/canonical.cpp:132-201 | signed text round-trips, the smallest 64-bit value included, and parsing accepts exactly the printer's outputs and "-0" |
| Canonical.PrintDecimal | src/canonical.cpp:118-130 | fills the digit buffer from the end |
| Canonical.ParseDecimalText | src/canonical.cpp:140-160 | the accumulating loop with its overflow check |
| Canonical.HexExact | src/canonical.cpp:49-74 | fixed-width hexadecimal parsing succeeds exactly on the printer's outputs |
| Canonical.PrintHex | src/canonical.cpp:49-58 | one nibble per position, most significant first |
| Canonical.DecodeHex | src/canonical.cpp:60-74 | the accumulating loop over the nibbles |
| Canonical.IdExact | include/lab_scheduler/identity.hpp:36-63 | an identity text is parsed exactly when it is the printed form of a non-null identity |
| Canonical.IdPrefixesDisjoint | include/lab_scheduler/identity.hpp:36-63 | no text is a valid identity of two different types |
| Canonical.ResourceKeyOrder | src/engine_scheduling.cpp:486-501 | for selections of equal size the order of the key texts is the lexicographic order of the numeric identities |

## Left out

- Explanations, audit records, decision records, detail texts and sequence counters of the engine: presentation;
  none of them decides anything.
- The failure code of a decision that places nothing: chosen from rejection counts for display only. The
  validation errors of advertisements, requests and images are likewise one code each.
- Generations, epochs and sequence numbers of the engine are unbounded naturals there; they get their 64-bit
  width in the formats. Identities, slots and hashes wrap as in the source.
- Text and list lengths of advertisements and requests, and their normalization: the validation predicates keep
  what later operations rely on; the lengths are checked in the record formats.
- A ranking bound of zero, for which the source reads a worst entry that is not there: the search object leaves
  the ranking empty.
- The order `std::sort` gives to entries with equal score and equal tie-break: the head is unique up to both.
- Locks and threads: every public method runs under one mutex, so it is one step. The persistence mutex appears
  as writes in any order in `Crashes`.
- Sockets, processes, file replacement, random and clock based identities, command line and rendering: calls into
  the system. Export, write-out, crash and restart stay as abstract events.
- The name hash of capabilities is a parameter of the formats (`mix64` is not modelled).
- Search.Searcher.EvaluateLeaf: takes the acceptance test and the score as functions of the problem; the loops
  behind them are `Plans.ValidateSelection` and `Ranking.ScoreCandidate`.
- RecordCodec.LedgerFormatsArePlain: only placements and reservations are canonical throughout; resources and
  requests carry capability entries, and `TagOrder.CanonicalExactly` says when theirs are.
- Codec.ByteWriter.Write: one writer interprets the layouts, where the source has a function per record.
- Engine.SchedulerEngine.ImportState: which error a rejected image is reported with is left to the validation.
- Refusals.RegisterCodes: the errors of a defective advertisement (`InvalidIdentity`, `LimitExceeded`, ...) are one
  code, because checks of texts and lengths stand between them; which defects there are is exact.
- Refusals.SubmitCodes: the same for a defective request.
- Refusals.PublishCodes: the same for a defective advertisement.
- Reload.ImportCodes: the same for a defective image.
- Payload layouts of the individual protocol messages: the same readers and writers in other orders.
