# A verified model of the capability registry

This project models the capability registry and the parts around it on which its promises rest, and
proves those promises in Dafny 4.11. `dafny verify dfyconfig.toml` checks all of it.

The registry keeps, for every entity of a fabric and every capability, a list of evidence records from
many publishers and a cached resolution of that list. Publishers submit full snapshots, partial
observations or incremental edits under optimistic concurrency control; worker boots are fenced,
coordinator epochs advance, entity generations are retired, and the durable part survives restarts.

## Layout

Resolution of one evidence list
- `Values`, `Evidence`: typed values, records, and the loops that resolve a list
- `ResolutionRules`: the declarative rule over the *set* of live records, and the proof that the loops
  compute what the rule decides, whatever the order of arrival
- `Winners`: every field of a resolution spelled out over the records, which of them speaks included

The registry as a state machine
- `RegistryState`, `RegistrySteps`: the state and every mutation as a function from state to state
- `EvidenceInvariant`, `RegistryInvariant`, `LifecycleInvariant`, `Recovery`: the invariant and the proof
  that every mutation, including a rejected publication and a load, keeps it
- `Runs`: what every run keeps (rule, bounds, restarts, replays, snapshots, generations, no lost update)
- `ReplayWindows`, `SetGenerations`: exactly when a committed attempt may commit again, and what a set
  generation that still matches proves
- `Backups`: the same invariant and rule in runs that may load any store saved earlier in the run
- `Demotion`, `Restarts`, `Serving`: exactly what fences, epoch advances, invalidations, restarts and commits
  leave of the records, of the answers, and of what is served
- `Authority`, `Admission`: exactly which publications, grants and registrations are admitted, what each
  refusal means, and that every record of every run stays within a grant declared for its scope
- `Publications`, `PublishedEvidence`, `ClaimOrder`: what each publication mode leaves behind, when claims
  are accepted, and how far the order of the claims of one publication shows
- `Commutation`, `ArrivalOrder`: the order in which two sources report does not matter
- `Rejections`, `PartialSets`, `PartialViews`, `Fencing`: promises of the documentation about rejected
  publications and fences that the code does not keep, each with the exact condition under which it does

The registry as the object the source updates in place
- `EvidenceLists`, `RegistryIndex`, `RecoveryLoops`, `SourceInvalidation`, `LiveRegistry`: class
  `CapabilityRegistry` with its entity table, its reverse index and its revalidation set. Every method is
  proved to keep `Valid()` and to change the abstract state exactly as the function of `RegistrySteps`
  with the same name says, so every theorem of the state machine is a theorem about the object. The
  index is complete in every state, and exact until a generation is retired

The coordinator
- `Authorship`, `Coordinator`, `CoordinatorRuns`: connections as interleaved atomic steps over one
  registry, one step for each critical section of a connection's thread
- `Conversations`: what each frame does when no other connection steps in between
- `LiveCoordinator`: class `CapabilityCoordinator`, one method per step, and the loop of one connection's
  thread proved to be a run of the state machine

Codecs and digests
- `Bytes`, `Orderings`, `ValueCodec`, `ValueFactories`, `ValueReading`, `ValueStreams`: primitives and
  capability values, and exactly which bytes are read as which value
- `Frames`, `Crc32`: wire frames, CRC-32 (clause 3.2.9 of IEEE 802.3)
- `StoreRows`, `StorePayload`, `StoreReading`, `StoreFile`, `Tokens`, `Sha256`: the durable store, exactly
  which bytes are read as which store, identifiers, SHA-256 (FIPS 180-4)
- `WireRefusals`, `KnownEncodings`, `KnownChecks`, `KnownDigests`: formats and limits spelled out byte by
  byte, and the published check values of CRC-32 and SHA-256
- `StoreLimits`, `StoredRegistry`, `RefusedSaves`, `FileRecovery`: which written stores are read back, the
  store that Save writes for a registry, what is loaded from its file, and concrete stores and registries
  that are refused

Requirements
- `Requirements`: three-valued evaluation of requirement trees
- `RequirementLaws`: what each requirement means, which are accepted, and what a refusal means

`Sequences` holds the few sequence and set facts the other modules share.

## Conventions

- Identifiers are natural numbers with 0 for "not set"; their order stands for the order of the
  identifier texts. Counters are unbounded naturals.
- The digest of a served set and the content digest of a request are the structured fields they are
  taken over, compared as such; SHA-256 itself is proved in `Sha256`.
- A choice the source leaves to a hash table or an unstable sort (the publisher a fence names, the order
  of boots in an epoch advance, the order of equal keys in a saved list) is a parameter, and every theorem
  holds for every choice.
- The evidence limit of a capability and the replay limit of an instance are at least one, and descriptors
  have distinct identifiers (`Environment.Valid`).
- A saved payload is any payload that `Saves` relates to the state. The runs of `Runs` load a store of
  the present state, as a restart after the last save does; those of `Backups` load a store of any
  earlier state too.
- `greeted` and `retired` are ghost history: the identities of accepted Hellos, and whether a generation
  was retired since the registry was created or loaded.

## Where the code and its documentation disagree

The model follows the code.

- A rejected publication is documented to leave the registry exactly as it was
  (include/fabric/capability/registry.hpp:118-119). Creating and retiring the addressed entity precede
  later checks, and a refused claim leaves earlier claims applied. `Rejections` proves exactly when the
  promise holds and gives a rejection that breaks it.
- A rejected publication is documented to leave no partial capability set
  (include/fabric/capability/publication.hpp:48-49). The claims applied before the refused one stay: queries
  and requirements are answered from them at once, and the next refresh of the entity, by an unrelated
  fence say, serves them in the set under the set generation there was.
  `PartialSets.RejectionKeepsAnswersExactlyWhen`, `PartialSets.NextFenceServesExactly` and
  `PartialViews.RejectionKeepsViewExactlyWhen` give the exact conditions,
  `PartialSets.RejectedAnswersLikeCommitted` says what is left, and `PartialViews.RejectionLeavesPartialSet`
  is such a rejection.
- Set generations are documented to advance exactly once per semantic change (README.md:69-71). A fence, an
  epoch advance or an invalidation changes the served set and its digest and leaves the set generation, so
  an expected generation that still matches does not prove the set unchanged.
  `SetGenerations.SameSetGenerationProvesExactly` gives the exact condition and
  `SetGenerations.SetChangesUnderItsGeneration` an input. The registry generation does prove it:
  `Runs.MatchingGenerationProvesSnapshot`.
- Stale replays are documented to be rejected (README.md:69-71). Registering an instance anew empties its
  replay window (src/registry.cpp:1887), and an attempt that left the window is not recognised.
  `ReplayWindows.AttemptCommitsAgainExactlyWhen` and `ReplayWindows.RegistrationForgets` give the exact
  conditions, `ReplayWindows.AttemptCommitsTwice` an attempt that commits twice.
- A fenced boot is documented to be shut out for good (README.md:73-74). A fence can be evicted.
  `Fencing` proves exactly when a fence is lost, that a boot stays shut out in every run that does not
  evict its fence, and gives a run in which an evicted boot publishes again.
- An epoch advance is documented to fence all previously registered boots (README.md:74-76). It stops when
  the fence list is full. `Fencing.AdvanceFencesEveryBootExactlyWhen` gives the exact condition and
  `Fencing.AdvanceMayLeaveBootUnfenced` an advance that leaves a boot unfenced.
- A closed connection fences the boot of its last accepted Hello only (src/distributed.cpp:648-653). A
  connection may greet again with another boot, and the boots it greeted with before stay unfenced:
  `CoordinatorRuns.ClosingFencesExactly`, `CoordinatorRuns.EarlierBootStaysOpen`.
- The order of the claims of a publication shows in one case: an exclusive full enumeration takes the
  provenance and the source class of the absences it reports from the claim in front
  (src/registry.cpp:1535-1538). `ClaimOrder.PublicationOrder` proves that this is the only case.
- Requirement results are documented to be in pre-order (include/fabric/capability/requirement.hpp:76).
  They are in post-order; the two agree exactly for a single node.
- The store is documented to reject duplicate entities, capabilities and evidence records and to end
  with a record count (include/fabric/capability/persistence.hpp:81-84, README.md:83-84). Only a
  capability listed twice is rejected; the count is in the header alone. `StorePayload.DecodesExactlyWhenFits`
  and `StorePayload.OneMoreEntityDecodesExactly` say exactly what is accepted, and `StoreLimits.DuplicatesAreRead`
  is a store with two records of one entity and two claims of one evidence identifier that is read.
- A saved store is meant to load again. `StoreFile.FileRoundTripsExactly` proves for every written store
  that it does exactly when its payload is in the decoder's bounds (`Fits`) and the whole file is within
  the bound the writer puts on the payload alone, and `StoredRegistry.SavedIsReadExactly` says of a saved
  registry which that is. The registry accepts and writes values outside the decoder's bounds: an integer
  claim below -(2^61) (src/schema.cpp:789-797, src/value.cpp:1124-1131) or more than 65536 live claims of one
  entity (src/persistence.cpp:533-538; max_evidence_per_entity, include/fabric/capability/registry.hpp:43, is
  never read) makes the whole store unreadable: `StoreLimits.IntegerClaimIsReadExactly`,
  `RefusedSaves.CrowdIsReadExactly` and the concrete stores of `StoreLimits.SomeStoresFail` and
  `RefusedSaves.SavedRegistriesAreRefused`.
- Versions compare equal after zero padding, but their component count is encoded, so equal values may
  have different encodings and digests: `ValueCodec.EqualValuesMayEncodeDifferently`.

## Model

| member | source | states |
|---|---|---|
| `Evidence.PickDeterministic` | src/registry.cpp:86-105 | the one-pass choice returns nothing for no records and otherwise the record that Pick chooses, to which no other is preferred; `Winners.PickIsNotBehind` says which that is |
| `Evidence.CollectConflicts` | src/registry.cpp:427-441 | the loop keeps one identifier for each distinct claim of a disagreeing class, cut at the bound |
| `Evidence.ComputeResolution` | src/registry.cpp:324-443 | the pass over an evidence list computes the resolution that the rule lemmas below characterise |
| `ResolutionRules.ResolveFollowsRule` | src/registry.cpp:324-443 | the computed resolution obeys the declarative rule over the set of live records: strongest class decides, no current member gives REVALIDATION_REQUIRED, agreement gives the winner's claim, disagreement gives CONFLICTED, none gives UNKNOWN |
| `ResolutionRules.RuleIsDeterministic` | README.md:61-65 | the rule leaves no choice over a non-empty set of live records |
| `ResolutionRules.PreferredIsTotal` | src/registry.cpp:86-105 | the preference between records of different source keys is total |
| `ResolutionRules.PickLeads` | src/registry.cpp:86-105 | the pick leads its whole class, so it does not depend on the order of arrival |
| `ResolutionRules.SameClaimIffSameClass` | src/registry.cpp:107-112 | comparing claims is an equivalence with explicit classes |
| `ResolutionRules.ConflictCountIsClaimCount` | src/registry.cpp:427-441 | the number of recorded conflicts is the number of distinct claims |
| `ResolutionRules.ViewDependsOnLiveRecords` | src/registry.cpp:53-80 | everything the set digest covers depends on the set of live records and the list length only |
| `Winners.PickIsNotBehind` | src/registry.cpp:86-105 | the pick of a class is the newest by evidence generation, among equals of the lowest source, among those of the lowest boot |
| `Winners.ResolveExactly` | src/registry.cpp:324-443 | every field of a computed resolution, spelled out over the records: the current members of the strongest class decide (all its members when none is current), the newest of them speaks, agreement gives its claim, disagreement CONFLICTED without a value, no current member REVALIDATION_REQUIRED, no retained record UNKNOWN |
| `Winners.OnlyOneResolution` | README.md:61-65 | those clauses are met by the computed resolution and by no other |
| `Winners.ConflictIsNamed` | src/registry.cpp:427-441 | a conflict lists the first record of each claim, in list order, and the first 64 of them |
| `Winners.CountsAreRight` | src/registry.cpp:324-380 | the counts of current and of outranked records, and whether some record is not current |
| `Winners.EveryRunNamesTheNewest` | src/registry.cpp:324-443 | in every reachable state every cached resolution has exactly those fields |
| `EvidenceLists.MarkList` | src/registry.cpp:938-958 | the in-place loop replaces exactly the selected records and reports whether there was one |
| `EvidenceLists.FindHighestGeneration` | src/registry.cpp:719-731 | the loop finds the highest evidence generation of a source key |
| `EvidenceLists.LiveEvidenceCount` | src/registry.cpp:733-743 | the loop counts the current and dormant records |
| `EvidenceLists.TrimEvidence` | src/registry.cpp:745-759 | the loop erases the oldest retired records until the list fits or only live records are left, and terminates |
| `EvidenceInvariant.SyncedFollowsRule` | src/registry.cpp:836-857 | a cached resolution whose evidence count is stale after a refusal still obeys the rule |
| `EvidenceInvariant.TrimKeeps` | src/registry.cpp:745-759 | trimming keeps every live record in order |
| `EvidenceInvariant.TrimGetsWithinLimit` | src/registry.cpp:745-759 | trimming always gets within the limit when the live records do |
| `EvidenceInvariant.HolderIsNeverRefused` | src/registry.cpp:836-857 | a source that already holds a live claim is never refused for evidence capacity |
| `EvidenceInvariant.AcceptedEvidence` | src/registry.cpp:836-898 | an accepted claim leaves one live record per source key, rising evidence generations and a bounded list |
| `EvidenceInvariant.ApplyClaimKeepsEntries` | src/registry.cpp:821-898 | applying a claim, accepted or refused, keeps every entry of the entity right |
| `EvidenceInvariant.MarkAllKeepsEntries` | src/registry.cpp:761-819 | superseding or demoting records keeps every entry of the entity right |
| `RegistryInvariant.CheckedClaimsAreOk` | src/registry.cpp:1280-1330 | claims that pass validation are distinct, and durable ones are no live observation |
| `RegistryInvariant.AdmittedRequestIsOk` | src/registry.cpp:1172-1382 | an admitted request names the current epoch and an unfenced boot and carries distinct claims the registry can hold; `Authority.AdmittedExactly` says exactly what is admitted |
| `Authority.AdmittedExactly` | src/registry.cpp:1172-1382 | a publication is admitted exactly when it is in shape, its instance is active and unfenced in the current epoch, and its scope's grant allows its mode, kind of entity, number of claims and every claim and edit: namespace, no stronger than the grant and the source class, durable only where permitted, fitting its descriptor |
| `Authority.CommittedWithinGrant` | src/registry.cpp:1299-1318 | whatever is committed stays within its grant, and what is not admissible is rejected and changes nothing |
| `Authority.ProposedWithin` | src/registry.cpp:1521-1546 | every claim a granted publication proposes is covered by the grant, the absences it reports itself too |
| `Authority.EveryRecordWasGranted` | README.md:61-68 | every record in every reachable state, restarts included, is one that a grant declared in the run for its scope allows, and its publisher is one that a grant declared for the scope admits |
| `Admission.RefusalNamesFault` | src/registry.cpp:1172-1382 | the error of a refused request names a fault the request has |
| `Admission.PublishVerdict` | src/registry.cpp:1384-1502 | an admissible publication gets the first verdict that applies: no room for the entity, stale entity generation, replay, conflicting or stale attempt, stale source, stale or mismatched set generation, a refused claim, committed |
| `Admission.ContentExactly` | src/registry.cpp:1419-1469 | two requests under grants alike exclusive have the same content exactly when they agree on every field that a replay compares |
| `Admission.DeclaredExactly` | src/registry.cpp:1768-1826 | a grant is declared exactly when it is in bounds and there is room, and is then the grant of its scope and the only change; the error of a refused one names its defect |
| `Admission.RegisteredExactly` | src/registry.cpp:1847-1889 | an instance is registered exactly when its identifiers are set, its boot is unfenced, its scope admits the publisher and there is room; it starts active in the current epoch, remembering nothing |
| `Admission.RetiredIsShutOut` | src/registry.cpp:1891-1902 | a retired instance keeps what it remembers, every publication of it is rejected, and nothing else changes |
| `Admission.ObservedExactly` | src/registry.cpp:1994-2040 | observing an entity generation creates the entity, does nothing, replaces the older generation, or is refused, and when |
| `Admission.InvalidatedExactly` | src/registry.cpp:2042-2082 | an entity is invalidated exactly when it is known at the generation named; only it changes, and an earlier reason stays |
| `RegistryInvariant.PublishKeepsState` | src/registry.cpp:1139-1699 | a publication in any mode, accepted or rejected half way, keeps the registry invariant |
| `LifecycleInvariant.FenceKeepsState` | src/registry.cpp:1904-1970 | fencing, with or without eviction, keeps the invariant; the fence list stays free of duplicates and lists exactly the fenced boots |
| `LifecycleInvariant.AdvanceKeepsState` | src/registry.cpp:1725-1766 | an epoch advance keeps the invariant |
| `LifecycleInvariant.EpochMarkEndsProcesses` | src/registry.cpp:1752-1758 | after an epoch advance no process-bound record is current |
| `Demotion.AdvanceDemotesExactly` | src/registry.cpp:1752-1758 | an epoch advance makes exactly the current process-bound records wait for revalidation, each in its place with its observation; every other record stays as it was |
| `Demotion.AdvancedAnswer` | README.md:74-76 | after an epoch advance a capability answers what the durable current members of its strongest class say, REVALIDATION_REQUIRED when that class has none, and UNKNOWN only where it held no retained record or those members say so |
| `Demotion.AdvanceForgetsNothing` | README.md:74-76 | a capability is UNKNOWN after an epoch advance only if it had no retained record or a current durable record that says UNKNOWN |
| `Demotion.FenceDemotesExactly` | src/registry.cpp:1950-1962 | a fence makes exactly the current process-bound records of its boot fenced |
| `Demotion.FencedAnswer` | src/registry.cpp:1950-1962 | after a fence the current members of the strongest class answer but those of a process of the boot; with none of them left it is REVALIDATION_REQUIRED |
| `Demotion.InvalidationDemotesExactly` | src/registry.cpp:2058-2080 | invalidating an entity makes exactly its current records wait for revalidation, durable ones too |
| `Demotion.InvalidatedAnswer` | src/registry.cpp:2058-2080 | every capability of an invalidated entity with a retained record answers REVALIDATION_REQUIRED |
| `Demotion.SourceInvalidationDemotesExactly` | src/registry.cpp:2084-2122 | invalidating a source makes exactly its current records wait for revalidation, in every entity |
| `Demotion.SourceInvalidatedAnswer` | src/registry.cpp:2084-2122 | after that the current members of the strongest class from other sources answer |
| `Serving.CommitSettles` | src/registry.cpp:1605-1699 | a commit leaves its entity of the generation named, valid, serving its cached resolutions under the set generation it reports, the next one exactly when readers can tell the served set from the last; it remembers the attempt, and moves the registry generation by what changed |
| `Serving.RefreshedServes` | src/registry.cpp:461-481 | a refreshed entity serves every capability once, in ascending order, with its cached resolution, stamped with its generations |
| `Serving.FencedExactly` | src/registry.cpp:1914-1969 | a fence adds itself at the end, evicts at most the oldest fence that protects no current record, removes the publisher named, and every entity then serves what it caches |
| `Serving.FenceWithoutEffect` | src/registry.cpp:1904-1944 | an already fenced boot is fenced again without effect, an unset boot and a full list are refused without effect |
| `Serving.AdvancedExactly` | src/registry.cpp:1725-1766 | an epoch advance takes the next epoch, forgets every registered instance, keeps every fence and grant, adds fences only for listed boots, and every entity then serves what it caches |
| `Serving.InvalidationServes` | src/registry.cpp:2058-2080 | an invalidation changes its entity alone and serves it anew, and does nothing exactly when the entity was invalidated before and holds no capability |
| `Serving.SourceInvalidationServes` | src/registry.cpp:2084-2122 | a source invalidation serves anew every entity that holds a capability, and only those, and moves the registry generation exactly when there is one |
| `LifecycleInvariant.ObserveKeepsState` | src/registry.cpp:1994-2040 | observing an entity generation keeps the invariant |
| `LifecycleInvariant.InvalidateKeepsState` | src/registry.cpp:2042-2082 | invalidating an entity keeps the invariant |
| `LifecycleInvariant.InvalidateSourceKeepsState` | src/registry.cpp:2084-2122 | invalidating a source keeps the invariant |
| `LifecycleInvariant.RegisterKeepsState` | src/registry.cpp:1847-1889 | registering a publisher instance keeps the invariant |
| `Recovery.LoadedEvidenceOk` | src/registry.cpp:3014-3056 | loaded evidence holds one live record per source key and fits the limit |
| `Recovery.LoadedFrom` | src/registry.cpp:2991-3083 | every entity is loaded from the record that stored it and none appears or is lost |
| `Recovery.LoadKeepsState` | src/registry.cpp:2928-3083 | a load of anything Save may have written establishes the invariant, with no process-bound record current |
| `Restarts.RestartRestoresExactly` | src/registry.cpp:2928-3083 | a restart restores every entity with its header and generations and, in every capability, exactly the retained records, each once: fenced ones fenced, durable ones current, process-bound ones awaiting revalidation |
| `Restarts.RestartedDirectory` | src/registry.cpp:2928-2990 | a restart restores epoch, grants and fences, and exactly the active instances of unfenced boots, inactive and remembering nothing |
| `Restarts.RestartedAnswer` | src/registry.cpp:3014-3056 | after a restart a capability answers what the durable, unfenced members of its strongest class say, durable records that awaited revalidation included; REVALIDATION_REQUIRED when there are none |
| `Recovery.ReloadingSettledEntity` | src/registry.cpp:2807-3083 | saving and loading a loaded entity gives the same resolutions and the same digest |
| `Recovery.SecondLoadChangesNothing` | src/registry.cpp:2807-3083 | from the first load on, save and load are a fixed point of what readers see |
| `Runs.PerformKeepsState` | src/registry.cpp:1139-3083 | every mutation keeps the registry invariant |
| `Runs.RunKeepsState` | src/registry.cpp:1139-3083 | the invariant holds in every state of every run of all mutations, restarts included |
| `Runs.EveryRunFollowsTheRule` | src/registry.cpp:324-443 | in every reachable state each cached resolution is the one its evidence decides |
| `Runs.EveryRunBoundsEvidence` | src/registry.cpp:719-898 | in every reachable state current process-bound records carry the current epoch and an unfenced boot, records carry their entity's generation, and lists stay ordered and bounded |
| `Runs.NoObservationSurvivesRestart` | src/registry.cpp:1752-1758 | after an epoch advance or a load, support rests on a current durable record that is no live observation and that no live record outranks |
| `Runs.RepeatNeverRetires` | src/registry.cpp:1384-1416 | though retirement runs before replay classification, repeating the latest attempt never retires anything |
| `Runs.ReplayChangesNothing` | src/registry.cpp:1419-1469 | resubmitting the latest committed attempt with the same content, under any expected generation, changes nothing |
| `Runs.RememberedAttemptNeverCommits` | src/registry.cpp:1419-1469 | an attempt still in the replay window never commits |
| `Runs.NoAttemptCommitsTwice` | src/registry.cpp:576-582 | over a run that keeps the instance and commits fewer attempts than the window holds, no attempt commits twice |
| `ReplayWindows.WindowIsLastCommits` | src/registry.cpp:576-582 | over a run that keeps an instance, its replay window is exactly the last commits of the instance, as many as fit |
| `ReplayWindows.AttemptCommitsAgainExactlyWhen` | src/registry.cpp:1419-1469 | a committed attempt commits again, over a run that keeps its instance and does not commit it in between, exactly when the run commits a windowful of others and nothing else is wrong with it |
| `ReplayWindows.StepKeepsWindowsBounded` | src/registry.cpp:576-582 | no step lets a replay window outgrow its limit |
| `ReplayWindows.RegistrationForgets` | src/registry.cpp:1881-1889 | after its instance is registered anew an attempt commits exactly when nothing else is wrong with it, whatever was committed before |
| `ReplayWindows.AttemptCommitsTwice` | README.md:69-71 | a concrete attempt that commits, and commits again after its instance was registered anew |
| `Runs.StepProgresses` | src/registry.cpp:1605-1629 | a mutation that changes an entity's generation, set generation, digest or the epoch also advances the registry generation |
| `Runs.MatchingGenerationProvesSnapshot` | src/registry.cpp:2555-2599 | in a run without a load, a snapshot is current exactly when the registry generation still matches |
| `Serving.SnapshotCurrentExactly` | src/registry.cpp:2555-2599 | a snapshot is current exactly when the epoch and registry generation are those recorded and no entity it names reads differently |
| `Serving.ViewsExactly` | src/registry.cpp:53-80 | two served sets have the same digest exactly when they agree on every field the digest covers, resolution by resolution |
| `Runs.InvalidationNeverMisses` | src/registry.cpp:2058-2080 | the source's test for a changed entity never misses a touched entry |
| `Runs.StepAdvances` | src/registry.cpp:1680-1683 | no mutation, a restart included, moves an entity generation, or within one a set generation or source floor, backwards |
| `Runs.CommitMovesFromExpected` | src/registry.cpp:1471-1502 | a commit finds the expected set generation, moves it to exactly the next one if anything changed, and raises the source floor to what it accepted |
| `Runs.NoLostUpdate` | src/registry.cpp:1484-1502 | no two semantic commits to one entity generation consume the same expected generation, and accepted source generations never go backwards, whatever lies between them |
| `SetGenerations.RunKeepsBehind` | src/registry.cpp:461-481 | over every run a served set never shows a capability at a higher generation than its entity holds |
| `SetGenerations.RefreshKeepsDigestExactly` | src/registry.cpp:461-481 | refreshing an entity leaves its set digest exactly when the set was up to date and the mark selects none of its records |
| `SetGenerations.SameSetGenerationProvesExactly` | README.md:69-71 | over a step other than a load that keeps an entity's generation and set generation, its set digest stays exactly when the step does not refresh the entity, or refreshes an up-to-date set and demotes none of its evidence |
| `SetGenerations.SetChangesUnderItsGeneration` | README.md:69-71 | a concrete fence that serves another set under the same set generation, which a publication expecting it still matches |
| `Backups.HistoryKeepsState` | src/registry.cpp:2928-3083 | the registry invariant holds in every state of every run in which any store saved earlier in the run may be loaded |
| `Backups.HistoryFollowsTheRule` | src/registry.cpp:324-443 | however old the stores that were loaded, every cached resolution is the one its evidence decides |
| `Backups.LoadGoesBack` | src/registry.cpp:2928-3083 | loading an earlier save restores the epoch, registry generation, fences, entities, generations and floors of the state that was saved, with no process-bound record current |
| `Backups.LoadLosesFenceExactly` | src/registry.cpp:2964-2974 | the load of an earlier save takes a fence away exactly when the boot was not fenced at the save; then a move since fenced it, and the boot can register again |
| `Backups.OlderSaveForgetsFence` | src/registry.cpp:2964-2974 | a concrete run in which the load of an older save takes a fence away |
| `Backups.NoObservationSurvivesOldSave` | src/registry.cpp:3014-3056 | after the load of a save of any age support rests on a current durable record that is no live observation and that no live record outranks |
| `Rejections.ClaimIsRefusedExactly` | src/registry.cpp:825-857 | a claim is refused exactly when the entity has no room for a new capability (claim count exceeded), or others hold every live place (evidence limit exceeded) |
| `Rejections.RejectionLeavesStateExactlyWhen` | include/fabric/capability/registry.hpp:118-119 | a rejected publication leaves the registry as it was exactly when it was refused before creating, retiring or applying anything |
| `Rejections.RejectionMayChangeState` | include/fabric/capability/publication.hpp:76-77 | a concrete rejected publication that creates the entity it names |
| `Rejections.RejectionKeepsPublishedSet` | src/registry.cpp:1384-1603 | the rejection itself leaves every served set as it was, or withdraws the set of the entity whose generation it retired |
| `PartialSets.RejectionKeepsAnswersExactlyWhen` | include/fabric/capability/publication.hpp:48-49 | a rejected publication leaves every query's answer as it was exactly when it was refused before it created, retired or applied anything |
| `PartialSets.RefreshServesExactly` | src/registry.cpp:1957-1962 | the next refresh of the entity serves what it would have served without the rejected request exactly under the same condition, and the set generation does not tell |
| `PartialSets.NextFenceServesExactly` | src/registry.cpp:1957-1962 | so does a fence of any boot that the entity's current evidence does not rest on |
| `PartialSets.RejectedAnswersLikeCommitted` | src/registry.cpp:1547-1603 | a partial observation or edit list that is rejected for lack of room answers queries as the part before the refused claim answers them when that part is committed |
| `PartialViews.RejectionKeepsViewExactlyWhen` | src/requirement.cpp:223-229 | after a snapshot or an observation is rejected for lack of room, what requirements are told about its entity is unchanged exactly when, for every capability, the rule decides over the live records left what it decided before |
| `PartialViews.RejectedRequirementsLikeCommitted` | src/requirement.cpp:223-341 | every requirement is answered after the rejection as after committing the part before the refused claim or edit |
| `PartialViews.UnseenRejectionKeepsRequirements` | src/requirement.cpp:223-341 | a publication refused before it applied anything leaves the answer of every requirement |
| `PartialViews.RejectionLeavesPartialSet` | include/fabric/capability/publication.hpp:48-49 | a concrete rejected observation whose first claim is answered as supported at once and served by the next fence of an unrelated boot, under an unmoved set generation |
| `Fencing.FenceIsRefusedExactly` | src/registry.cpp:1904-1944 | a fence is refused exactly for an unset boot, or when the list is full and every fence protects current evidence |
| `Fencing.FencedBootIsShutOut` | src/registry.cpp:1227-1232 | a fenced boot can neither publish nor register, and trying changes nothing |
| `Fencing.FenceIsLostExactlyWhen` | src/registry.cpp:1914-1945 | a step takes a fence away exactly when it evicts it for another one; loads and epoch advances never do |
| `Fencing.FencedBootNeverPublishes` | README.md:73-74 | a fenced boot stays shut out through every run that does not evict its fence |
| `Fencing.EvictedBootMayPublish` | README.md:73-74 | a concrete run after which a boot that was fenced publishes again |
| `Fencing.AdvanceFencesEveryBootExactlyWhen` | src/registry.cpp:1736-1750 | an epoch advance fences every registered boot exactly when the fence list has room for those not fenced yet |
| `Fencing.AdvanceMayLeaveBootUnfenced` | README.md:74-76 | a concrete advance that leaves a registered boot unfenced, after which that boot registers again |
| `Publications.ApplyClaimsEffect` | src/registry.cpp:1547-1555 | accepted claims for distinct capabilities each take effect on their capability and touch no other |
| `Publications.ClaimedLiveSet` | src/registry.cpp:836-898 | a claimed capability holds the new record and the live records of every other source |
| `Publications.CommittedSnapshot` | src/registry.cpp:1510-1546 | a committed full snapshot leaves its source exactly one live, current record per claim and per reported absence and no other; other sources keep what the snapshot does not supersede |
| `Publications.CommittedObservation` | src/registry.cpp:1547-1555 | a committed partial observation leaves unmentioned capabilities exactly as they were |
| `PublishedEvidence.CommittedLeavesExactly` | src/registry.cpp:1510-1603 | what every committed publication, of any mode, leaves of every capability: the source's own record as it was, gone, or one new record with the claim stated, authored and newer than any it had; beside it exactly the records of other sources that stay |
| `PublishedEvidence.EditsLeave` | src/registry.cpp:1556-1603 | of a list of incremental edits the last that concerns a capability decides, and only the first that supersedes the source counts |
| `PublishedEvidence.AbsentExactly` | src/registry.cpp:1521-1546 | a snapshot reports absent exactly the described capabilities in its namespaces whose absence is negative and that it does not claim |
| `ClaimOrder.ClaimsAreAcceptedExactly` | src/registry.cpp:821-898 | claims for distinct capabilities are all accepted exactly when the new capabilities fit the entity and no claimed capability is crowded by other sources |
| `ClaimOrder.ClaimOrderDoesNotMatter` | src/registry.cpp:1547-1555 | the order of a list of claims changes neither whether it is accepted nor what it leaves |
| `ClaimOrder.PublicationOrder` | src/registry.cpp:1510-1555 | the order of the claims of a publication never changes whether it commits; it changes what a committed one leaves exactly when the claim in front lends its provenance and source class to reported absences |
| `Commutation.ClaimsCommute` | src/registry.cpp:821-898 | two claims of different sources for one capability give the same answer in either order below capacity |
| `Commutation.ReportsCommute` | src/registry.cpp:1547-1555 | two reports about one entity give the same answers in either order |
| `ArrivalOrder.LaterObservationCommitsExactly` | src/registry.cpp:1419-1502 | of two observations of one entity generation the later one is committed exactly when it expects the set generation the first reached, is another attempt, and finds room |
| `ArrivalOrder.ObservationsCommute` | src/registry.cpp:463-481 | two partial observations of one entity generation by different sources that could each be committed now, with room for both, are both committed in either order and leave the same answers and the same set digest |
| `RegistryIndex.LowerBound` | src/registry.cpp:218-228 | the binary search finds the first position not below a value |
| `RegistryIndex.InsertSorted` | src/registry.cpp:218-222 | inserting keeps a bucket sorted and duplicate-free and adds exactly the value |
| `RegistryIndex.EraseSorted` | src/registry.cpp:224-228 | erasing keeps a bucket sorted and removes exactly the value |
| `RegistryIndex.StoredEntryKeepsIndex` | src/registry.cpp:445-459 | refiling a newly resolved entry keeps the index complete, and exact if it was |
| `RegistryIndex.RetirementAndIndex` | src/registry.cpp:1099-1135 | retiring a generation keeps the index complete, and exact exactly when nothing was resolved |
| `RecoveryLoops.StoreClaims` | src/registry.cpp:2858-2903 | the loop writes exactly the live records |
| `RecoveryLoops.StoreFloors` | src/registry.cpp:2904-2910 | the loop writes every source floor once |
| `RecoveryLoops.StoreEntity` | src/registry.cpp:2849-2923 | the stored record holds the header, capabilities, live records and floors of its entity |
| `RecoveryLoops.ReadClaims` | src/registry.cpp:3014-3056 | the loop appends each stored claim to its capability, demoted as a load must |
| `RecoveryLoops.ReadFences` | src/registry.cpp:2964-2974 | the loop restores the fence list and the fenced boots together |
| `RecoveryLoops.ReadRegistrations` | src/registry.cpp:2976-2989 | the loop restores registrations as inactive and drops fenced boots |
| `LiveRegistry.CheckEveryClaim` | src/registry.cpp:1280-1330 | the loop finds the first invalid claim, duplicates included |
| `LiveRegistry.ClassifyAttempt` | src/registry.cpp:1419-1469 | the loop over the replay window tells replay, conflict, stale replay and new attempts apart |
| `LiveRegistry.CapabilityRegistry.constructor` | src/registry.cpp:234-242 | a new registry is empty, valid and has an exact index |
| `LiveRegistry.CapabilityRegistry.FinishResolution` | src/registry.cpp:445-459 | storing a resolution refiles the capability; the index stays complete, and exact while no generation was retired |
| `LiveRegistry.CapabilityRegistry.MarkEvidence` | src/registry.cpp:938-958 | marking one capability in place is the specified change |
| `LiveRegistry.CapabilityRegistry.ApplyClaim` | src/registry.cpp:821-898 | applying a claim in place is the specified change, refusal included |
| `LiveRegistry.CapabilityRegistry.ApplyEdits` | src/registry.cpp:1556-1603 | the loop over incremental edits is the specified change, up to the first refused edit |
| `LiveRegistry.CapabilityRegistry.ApplyAbsences` | src/registry.cpp:1523-1546 | the loop over the descriptors applies exactly the reported absences |
| `LiveRegistry.CapabilityRegistry.ClearForSnapshot` | src/registry.cpp:1510-1514 | a snapshot supersedes the other identities of an exclusive scope and its own source |
| `LiveRegistry.CapabilityRegistry.LocateSlot` | src/registry.cpp:1384-1416 | finding, creating or retiring the addressed entity is the specified change |
| `LiveRegistry.CapabilityRegistry.CommitSlot` | src/registry.cpp:1605-1683 | a commit in place is the specified change of entity, generations and replay window |
| `LiveRegistry.CapabilityRegistry.Publish` | src/registry.cpp:1139-1699 | a publication keeps the registry valid and its outcome and new state are the specified ones |
| `LiveRegistry.CapabilityRegistry.DeclareAuthority` | src/registry.cpp:1768-1826 | declaring a grant is the specified change |
| `LiveRegistry.CapabilityRegistry.RegisterPublisher` | src/registry.cpp:1847-1889 | registration is the specified change |
| `LiveRegistry.CapabilityRegistry.RetirePublisher` | src/registry.cpp:1891-1902 | retirement of an instance is the specified change |
| `LiveRegistry.CapabilityRegistry.FindOwner` | src/registry.cpp:1951-1955 | the loop names a publisher registered for the boot, if there is one |
| `LiveRegistry.CapabilityRegistry.EvictFence` | src/registry.cpp:1914-1944 | the loop evicts the oldest fence that protects no current evidence, if there is one |
| `LiveRegistry.CapabilityRegistry.FenceWorkerBoot` | src/registry.cpp:1904-1970 | fencing is the specified change |
| `LiveRegistry.CapabilityRegistry.AdvanceCoordinatorEpoch` | src/registry.cpp:1725-1766 | the epoch advance is the specified change |
| `LiveRegistry.CapabilityRegistry.ObserveEntityGeneration` | src/registry.cpp:1994-2040 | observing a generation is the specified change |
| `LiveRegistry.CapabilityRegistry.InvalidateEntity` | src/registry.cpp:2042-2082 | invalidating an entity is the specified change |
| `LiveRegistry.CapabilityRegistry.InvalidateSource` | src/registry.cpp:2084-2122 | invalidating a source is the specified change, and the number returned is the number of places that held a current record of the source |
| `SourceInvalidation.CountEntity` | src/registry.cpp:2097-2103 | the nested loops count the places of an entity that hold a current record of the source |
| `SourceInvalidation.InvalidatedSourceIsSilent` | src/registry.cpp:2093-2111 | afterwards no record of the source is current anywhere, and the current records of every other source are in the same places as before |
| `LiveRegistry.CapabilityRegistry.EntitiesFromKeys` | src/registry.cpp:2390-2399 | the entities of a bucket, in bucket order |
| `LiveRegistry.CapabilityRegistry.EntitiesResolved` | src/registry.cpp:2403-2420 | every entity resolved in the state is listed, and no other while no generation was retired |
| `LiveRegistry.CapabilityRegistry.CapabilitiesRequiringRevalidation` | src/registry.cpp:2461-2466 | every capability awaiting revalidation is listed, and no other while no generation was retired |
| `LiveRegistry.CapabilityRegistry.CheckSnapshot` | src/registry.cpp:2555-2599 | the loop calls a snapshot current exactly when nothing it recorded has changed |
| `LiveRegistry.CapabilityRegistry.Save` | src/registry.cpp:2807-2926 | the payload is one that Save may build from the state |
| `LiveRegistry.CapabilityRegistry.Load` | src/registry.cpp:2928-3083 | a load replaces everything, leaves the registry valid and its index exact |
| `Authorship.PublishAddsOwnRecords` | src/registry.cpp:821-898 | every record a publication adds carries its author's key, publisher, scope, epoch, source generation, attempt and publication, and a claim it proposes; everything else was held before and is never made current by it |
| `Authorship.MarkingAddsNothing` | src/registry.cpp:938-958 | demoting evidence adds no record |
| `Coordinator.CachingKeepsOk` | src/distributed.cpp:539-548 | caching an answer keeps the remembered ids distinct, at most 64, and exactly those of the cache |
| `Coordinator.StepKeepsOk` | src/distributed.cpp:381-659 | every step of every connection keeps the coordinator invariant |
| `CoordinatorRuns.RunKeepsOk` | src/distributed.cpp:381-659 | the coordinator invariant holds under every interleaving |
| `CoordinatorRuns.EveryRecordWasGreeted` | src/distributed.cpp:450-468 | under every interleaving each record carries the identity of a Hello that was accepted, or was loaded with the registry |
| `CoordinatorRuns.IdentityIsLastHello` | src/distributed.cpp:450-468 | only an accepted Hello changes the identity of a connection |
| `CoordinatorRuns.PublicationCarriesIdentity` | src/distributed.cpp:501-512 | what a publication adds carries the publisher, scope, source and boot its connection holds at that moment |
| `CoordinatorRuns.ClosedConnectionIsSilent` | src/distributed.cpp:648-653 | once a greeted connection has closed and its fence was not refused, no process-bound record of its boot is current while the fence is retained |
| `CoordinatorRuns.ClosingFencesExactly` | src/distributed.cpp:648-653 | closing a connection newly fences exactly the boot of its last accepted Hello, if there was one and its fence is not refused |
| `CoordinatorRuns.EarlierBootStaysOpen` | src/distributed.cpp:648-653 | a connection that greets again with another boot and then ends leaves the first boot unfenced and its publisher registered |
| `CoordinatorRuns.NoRequestIsPublishedTwice` | src/distributed.cpp:483-564 | a request id reaches the registry at most once over a connection while fewer than 64 other answers are cached after its own |
| `CoordinatorRuns.CachedRequestChangesNothing` | src/distributed.cpp:484-493 | a request whose answer is cached changes nothing, whatever it carries |
| `CoordinatorRuns.AdvanceOvertakesPublication` | src/distributed.cpp:511-512 | a publication stamped before an epoch advance is refused after it and changes nothing, whatever happens in between |
| `CoordinatorRuns.FencedBootWasGreeted` | src/distributed.cpp:601-606 | under every interleaving a boot that a frame is about to fence was named by an accepted Hello together with the scope of the frame's connection |
| `CoordinatorRuns.ForeignBootIsNotFenced` | src/distributed.cpp:601-610 | under every interleaving a fence frame for a boot never greeted under its connection's scope changes nothing |
| `CoordinatorRuns.OwnBootMayBeFenced` | src/distributed.cpp:601-613 | a connection that has just greeted may fence the boot of its own Hello |
| `Conversations.GreetingAnswered` | src/distributed.cpp:381-468 | an undisturbed Hello is refused for an unreadable frame, another epoch or a refused registration, changing nothing but the connection; otherwise it registers the instance, gives the connection its identity and remembers the scope of its boot |
| `Conversations.PublicationAnswered` | src/distributed.cpp:494-548 | an undisturbed publish frame goes to the registry in the current epoch exactly when it speaks for the connection's identity; its answer is remembered, and the oldest of 64 forgotten |
| `Conversations.FenceAnswered` | src/distributed.cpp:601-631 | an undisturbed fence frame for a boot of the connection's scope fences it and forgets its scope, or is refused without effect |
| `Conversations.CloseAnswered` | src/distributed.cpp:648-659 | an undisturbed close fences the boot of the connection's identity if it has one, forgets its scope and removes the connection |
| `LiveCoordinator.CapabilityCoordinator.AcceptConnection` | src/distributed.cpp:352-360 | a connection is admitted exactly while there is room |
| `LiveCoordinator.CapabilityCoordinator.ReceivePublish` | src/distributed.cpp:483-512 | a publish frame is answered from the cache, refused, or let through as specified |
| `LiveCoordinator.CapabilityCoordinator.CacheAnswer` | src/distributed.cpp:539-548 | the queue and the cache forget the oldest answer and remember the new one together |
| `LiveCoordinator.CapabilityCoordinator.ServeConnection` | src/distributed.cpp:381-659 | the loop of one connection's thread, undisturbed, is a run of the state machine that ends with the connection removed |
| `Requirements.ValidExactlyWhen` | src/requirement.cpp:36-123 | a requirement is valid exactly when it is well formed, within the depth bound and within the node bound |
| `Requirements.DecidedAnswersStand` | src/requirement.cpp:166-341 | if every leaf demands proof, a decided answer is unchanged in any registry that keeps the supported capabilities |
| `Requirements.UnprovenLeafCanFlip` | src/requirement.cpp:230-341 | a leaf that does not demand proof can flip from NotSatisfied to Satisfied |
| `Requirements.OneResultPerNode` | src/requirement.cpp:354-370 | exactly one result is recorded for each node of a validated requirement |
| `Requirements.PathsAreDistinct` | src/requirement.cpp:171-180 | no two results name the same node |
| `Requirements.PreOrderExactlyWhenSingle` | include/fabric/capability/requirement.hpp:76-77 | parents are recorded before their children exactly when there are no children |
| `Requirements.ObservationKeepsOtherAnswers` | src/requirement.cpp:223-229 | a committed partial observation leaves the answer of every requirement that asks about none of the capabilities it mentions |
| `Requirements.Validator.ValidateNode` | src/requirement.cpp:40-123 | the recursion over the shared node counter gives the specified verdict and count |
| `Requirements.Evaluator.EvaluateNode` | src/requirement.cpp:171-341 | the recursion gives the answer that `RequirementLaws.EvaluateExactly` characterises and appends one result per node |
| `Requirements.EvaluateRequirement` | src/requirement.cpp:394-420 | an invalid requirement is reported and a valid one gets its answer with exactly one result per node, so the record cap never fires |
| `RequirementLaws.EvaluateExactly` | src/requirement.cpp:166-341 | a requirement is Satisfied exactly when it holds and NotSatisfied exactly when it fails, in two mutually dual definitions over the tree: state, boolean, minimum, maximum, range, set, version interval, protocol and enumeration leaves, conjunction, disjunction, negation |
| `RequirementLaws.ResultsExactly` | src/requirement.cpp:166-222 | what is recorded is exactly one record per node, under the child numbers that lead to it, with its kind, its capability and its own answer |
| `RequirementLaws.SupportedLeafAnswer` | src/requirement.cpp:230-341 | a leaf over a supported capability is Undetermined exactly when the exposed value is of another kind or unit than it compares |
| `RequirementLaws.BoundsHoldExactly` | src/requirement.cpp:259-281 | for canonical values of the operand's unit Minimum is Satisfied exactly when some amount at least the operand is offered, Maximum exactly when some amount at most the operand is |
| `RequirementLaws.MinimumIsOfferedExactly` | src/requirement.cpp:135-162 | the amount a minimum is held against decides for every operand exactly when the value is a quantity, an interval that is not reversed, or a set that is not empty and has its greatest member last |
| `RequirementLaws.MaximumIsOfferedExactly` | src/requirement.cpp:135-162 | likewise for a maximum and the least member first |
| `RequirementLaws.VersionLessIsEarlier` | include/fabric/capability/value.hpp:104-109 | versions are ordered component by component, missing ones read as zero |
| `RequirementLaws.AcceptedExactly` | src/requirement.cpp:40-123 | a requirement is accepted exactly when every node has the operand and children its kind needs, none lies more than 8 levels deep, and there are at most 256 |
| `RequirementLaws.RefusalNamesFault` | src/requirement.cpp:40-123 | a refusal names a node that has the fault, or too many nodes |
| `RequirementLaws.RegistryAnswer` | src/requirement.cpp:223-341 | a leaf asked of a registry is compared with the claim of the record that proves the capability; where none does, it is Undetermined or, if it demands no proof, NotSatisfied |
| `Crc32.ExtendState` | src/digest.cpp:158-168 | the bit loop computes the specified state |
| `Crc32.MaskedStep` | src/digest.cpp:162-166 | the masked form of the inner step is polynomial division by one bit |
| `Crc32.ExtendConcat` | src/digest.cpp:158-168 | the checksum of two spans is the checksum of their concatenation |
| `Crc32.StateIsInjective` | src/digest.cpp:158-168 | extending over any bytes is injective in the state |
| `Crc32.OneByteChangesCheck` | src/digest.cpp:156-174 | sequences that differ in exactly one byte have different check values |
| `KnownChecks.ChecksumOfDigits` | tests/test_ids.cpp:189-192 | the checksum of the nine digits 1 to 9 is the check value 0xCBF43926 of clause 3.2.9 of IEEE 802.3 |
| `Sha256.PaddingIsInjective` | src/digest.cpp:118-133 | messages within the standard's length never share their padded blocks |
| `Sha256.Hasher.constructor` | src/digest.cpp:39-41 | a new hasher has absorbed nothing |
| `Sha256.Hasher.Transform` | src/digest.cpp:43-95 | the in-place schedule and rounds compute the compression function of section 6.2.2 of FIPS 180-4 |
| `Sha256.Hasher.Update` | src/digest.cpp:97-112 | an update absorbs its bytes, and nothing once finished |
| `Sha256.Hasher.Finish` | src/digest.cpp:118-142 | finishing gives the one-shot digest of everything absorbed, and gives it again when asked again |
| `Sha256.DigestInParts` | src/digest.cpp:97-142 | however a message is cut into updates the digest is the digest of the whole |
| `KnownDigests.DigestOfAbc` | tests/test_ids.cpp:158-163 | the digest of "abc" is the one of FIPS 180-4's example |
| `Sha256.ComputeDigest` | src/digest.cpp:144-148 | the digest of one span |
| `Bytes.LittleEndianRoundTrip` | src/encoding.cpp:22-37 | a number that fits its width is read back from its bytes |
| `Bytes.FromLittleEndianRoundTrip` | src/encoding.cpp:72-109 | bytes are the bytes of the number they are read as |
| `Bytes.SignedRoundTrip` | src/encoding.cpp:111-115 | every 64-bit signed number is read back |
| `Bytes.BoolRoundTrip` | src/encoding.cpp:117-126 | booleans are read back |
| `Bytes.StringRoundTrip` | src/encoding.cpp:39-48 | a string within the bound is read back and what follows it is left |
| `Bytes.TextRoundTrip` | src/encoding.cpp:148-175 | a control-free text within the bound is read back |
| `Bytes.ListRoundTrip` | src/value.cpp:1047-1103 | a list is read back item by item when every item is |
| `Bytes.ByteWriter.Unsigned` | src/encoding.cpp:22-37 | the shift loop appends the little-endian bytes |
| `Bytes.ByteWriter.String` | src/encoding.cpp:39-61 | a string is appended with its length, or refused with nothing written |
| `Bytes.ByteReader.Unsigned` | src/encoding.cpp:63-109 | reading advances past the number, or fails when too little is left |
| `Bytes.ByteReader.String` | src/encoding.cpp:128-146 | reading checks the bound before the length |
| `Bytes.ByteReader.Text` | src/encoding.cpp:148-175 | reading refuses control characters |
| `Frames.DecodeInvertsEncode` | src/wire.cpp:466-578 | decoding an encoded frame gives the frame back |
| `Frames.DecodeAcceptsExactlyEncodings` | src/wire.cpp:511-578 | the decoder accepts exactly the image of the encoder |
| `Frames.OneDamagedByteIsRejected` | src/wire.cpp:559-570 | no byte string that differs from a valid frame in exactly one byte is accepted |
| `WireRefusals.FrameRefusedExactly` | src/wire.cpp:511-578 | a frame is refused exactly when it has a fault, and the error names one it has, every offset, width and constant spelled out |
| `KnownEncodings.KnownFrameFields` | src/wire.cpp:466-500 | where each field of every encoded frame lies and which code each message type has |
| `Frames.CodesAreUnique` | src/wire.cpp:84-97 | message types and wire codes correspond one to one |
| `Frames.WireCodeOf` | src/wire.cpp:84-90 | the table scan finds the code of a message type |
| `Frames.EncodeFrame` | src/wire.cpp:466-500 | the writer produces the specified bytes or refuses |
| `Frames.DecodeFrame` | src/wire.cpp:511-578 | the reader gives the specified verdict |
| `Orderings.ScalarIsTotal` | src/value.cpp:295-316 | the scalar order is a strict total order |
| `Orderings.TupleIsTotal` | src/value.cpp:398-406 | the order that sorts tuple sets and finds duplicates is a strict total order |
| `Values.SameValueIffNormal` | src/value.cpp:988-1030 | value equality is equality of normal forms |
| `Values.SameVersionIffPadded` | include/fabric/capability/value.hpp:104-109 | version equality is equality after zero padding |
| `ValueCodec.ValueRoundTrip` | src/value.cpp:1032-1333 | decoding inverts encoding and leaves what follows |
| `ValueCodec.EncodingsArePrefixFree` | src/value.cpp:1032-1106 | no encoding is a prefix of another |
| `ValueCodec.DecodedIsCanonical` | src/value.cpp:1108-1333 | every decoded value passes ValidateCanonical and is in the decoder's bounds |
| `ValueCodec.DecoderImage` | src/value.cpp:1108-1333 | the decoder produces exactly the encodable values |
| `ValueCodec.ReencodingIsIdentity` | src/value.cpp:1108-1333 | encoding an accepted value again and decoding it is the identity, whatever order its members came in |
| `ValueCodec.SameEncodingIffIdentical` | src/value.cpp:1032-1106 | two values share an encoding exactly when they are structurally identical |
| `KnownEncodings.CarriedExactly` | src/value.cpp:1108-1333 | the values the codec carries, with every limit of the decoder spelled out, are read back |
| `ValueReading.ReadExactly` | src/value.cpp:1108-1333 | a value is read off the front of any bytes exactly when the codec carries it and the bytes start with its encoding, the members of a set or the fields of a record in some order |
| `KnownEncodings.KnownTupleSet` | src/value.cpp:1032-1106 | the exact bytes of a tuple set; the other lemmas of the module give those of a value of every other kind |
| `ValueCodec.EqualValuesMayEncodeDifferently` | src/value.cpp:206-211 | two equal version intervals with different encodings |
| `ValueFactories.SetFactoriesIgnoreOrder` | src/value.cpp:524-555 | the order in which the members of a numeric, protocol or enumeration set are given does not matter |
| `ValueFactories.TupleSetFactoryIgnoresOrder` | src/value.cpp:639-671 | the order in which the tuples of a set are given does not matter |
| `ValueFactories.RecordFactoryIgnoresOrder` | src/value.cpp:700-727 | every arrangement of the fields of a record gives the same record or the same error |
| `ValueFactories.NameTwinsAreNeighbours` | src/value.cpp:715-722 | comparing neighbours after sorting finds a repeated field name exactly when two given fields share one |
| `ValueFactories.BuiltIsCanonical` | src/value.cpp:475-745 | every value a factory builds passes ValidateCanonical |
| `ValueFactories.EncodableExactly` | src/value.cpp:850-986 | the codec carries exactly the canonical values whose parts are in the decoder's bounds |
| `ValueFactories.BuiltRoundTripsExactly` | src/value.cpp:1032-1333 | a value a factory builds is decoded from its encoding exactly when its parts are in bounds |
| `ValueStreams.EncodeScalar` | src/value.cpp:318-338 | appends the specified bytes of a scalar |
| `ValueStreams.EncodeVersion` | src/value.cpp:206-211 | appends the component count and the components |
| `ValueStreams.EncodeValue` | src/value.cpp:1032-1106 | appends the specified bytes of a value |
| `ValueStreams.EncodableTextsFit` | src/value.cpp:1047-1103 | everything the decoder produces is within the length limits of the writer, so nothing is dropped when it is written again |
| `ValueStreams.DecodeScalar` | src/value.cpp:340-386 | reads a scalar as specified |
| `ValueStreams.DecodeVersion` | src/value.cpp:213-232 | reads a version as specified |
| `ValueStreams.DecodeNumericSet` | src/value.cpp:1173-1200 | reads the one set whose members must already ascend |
| `ValueStreams.DecodeTupleSet` | src/value.cpp:1258-1284 | reads tuples in any order and sorts them |
| `ValueStreams.DecodeRecord` | src/value.cpp:1285-1302 | reads fields in any order and sorts them |
| `ValueStreams.DecodeValue` | src/value.cpp:1108-1333 | the reader gives the specified value and rest, or the specified error |
| `StoreRows.RowRoundTrip` | src/persistence.cpp:272-424 | every record that fits is written and read back, whatever follows it |
| `StoreRows.RowsRoundTrip` | src/persistence.cpp:426-605 | every list of records that fits is written and read back |
| `StoreRows.ReadRowFits` | src/persistence.cpp:306-424 | whatever is read fits the bounds |
| `StorePayload.CutInvertsRecord` | src/persistence.cpp:717-730 | cutting the front record off gives its type, body and the rest |
| `StorePayload.PayloadRoundTrip` | src/persistence.cpp:713-904 | every payload within the decoder's bounds is encoded and decoding gives it back |
| `StorePayload.DecodedFits` | src/persistence.cpp:784-904 | whatever the decoder accepts is within its bounds, so encoding and decoding again is the identity |
| `StorePayload.DecodesExactlyWhenFits` | src/persistence.cpp:784-904 | an encoded payload is decoded to itself exactly when it is in the decoder's bounds, which never compare one entity or one claim with another |
| `StorePayload.OneMoreEntityDecodesExactly` | src/persistence.cpp:880-889 | one more entity is decoded exactly when its own record is in bounds, whichever entities, its own identifier included, are stored already |
| `StoreReading.RowReadExactly` | src/persistence.cpp:306-711 | a record's fields are read off any bytes exactly when they fit and the bytes start with their encoding, what is sorted in some order |
| `StoreReading.DecodedExactly` | src/persistence.cpp:784-904 | any bytes are decoded to a payload exactly when they are a sequence of records, in any order, one of them meta, each body the encoding of the next row of its list, and no list beyond its bound |
| `Tokens.BootsExactly` | src/ids.cpp:82-99 | a worker boot is 8 to 64 bytes, an evidence identifier 32, of hexadecimal words joined by single dashes |
| `Tokens.NamesExactly` | src/ids.cpp:56-81 | names, domains and field names are words of lower case letters and digits joined by single separators, within their lengths |
| `StorePayload.AppendRecord` | src/persistence.cpp:717-730 | the buffer patched back after the body is exactly type, length and body |
| `StorePayload.EncodePayload` | src/persistence.cpp:713-782 | the growing buffer is the concatenation of the records |
| `StorePayload.DecodePayload` | src/persistence.cpp:784-904 | the loop over the remaining bytes terminates and gives the specified verdict |
| `StoreFile.FileRoundTripsExactly` | src/persistence.cpp:1026-1114 | a written store is read back as the payload it was written from exactly when the payload is in the decoder's bounds and the whole file, header included, is within the bound the writer puts on the payload alone |
| `StoreLimits.EntitiesAreReadExactly` | src/persistence.cpp:784-904 | a store of entities alone is read back exactly when there are not too many of them and each is in bounds |
| `StoreLimits.IntegerClaimIsReadExactly` | src/value.cpp:1124-1131 | a store with a claim of any 64-bit integer is written, and read back exactly when the integer is within the decoder's bound; otherwise the whole store is refused |
| `StoreLimits.ClaimCountIsReadExactly` | src/persistence.cpp:533-538 | a written store of one entity with copies of one claim is read back exactly when there are at most 65536, and refused with the limit error otherwise |
| `StoreLimits.DuplicatesAreRead` | include/fabric/capability/persistence.hpp:81-84 | a store with two records of one entity that disagree, and two claims of one evidence identifier that disagree, is read back as written |
| `StoreLimits.SomeStoresFail` | include/fabric/capability/persistence.hpp:81-84 | concrete stores that are written and then refused, and one with duplicates that is accepted |
| `StoredRegistry.SavedFitsExactly` | src/registry.cpp:2807-2926 | the store of a saved registry is in the decoder's bounds exactly when its lists are short enough and every live claim's value is one the codec carries |
| `StoredRegistry.SavedIsReadExactly` | src/registry.cpp:2807-2926 | a saved registry that was written is read back exactly under that condition and the bound on the whole file |
| `StoredRegistry.ClaimFitsExactly` | src/persistence.cpp:272-304 | a claim as Save writes it is read back exactly when its value is one the codec carries |
| `StoredRegistry.EntityFitsExactly` | src/persistence.cpp:426-466 | an entity as Save writes it is in bounds exactly when its three lists are short enough and its claimed values encodable |
| `FileRecovery.RowsMeanSaved` | src/registry.cpp:2807-3083 | the rows written for a saved registry, read field by field, mean the saved registry |
| `FileRecovery.FileRestoresRegistry` | src/registry.cpp:2807-3083 | a saved registry in bounds, written to a file and read back, is loaded as the saved registry |
| `RefusedSaves.CrowdIsReadExactly` | src/persistence.cpp:533-538 | a registry in which any number of sources declared one capability is saved and written, and read back exactly when no more than 65536 of them did and the value is encodable |
| `RefusedSaves.SavedRegistriesAreRefused` | src/value.cpp:1124-1131 | two concrete registries, valid and saved, whose written stores are refused: one integer below the codec's bound, one capability declared by 65537 sources |
| `StoreFile.AcceptedMatchesHeader` | src/persistence.cpp:915-964 | an accepted file has the length, digest and header checksum its header states |
| `WireRefusals.FileRefusedExactly` | src/persistence.cpp:915-964 | a store file is refused before its payload is decoded exactly when it has a fault, and the error names one it has |
| `WireRefusals.FileReadExactly` | src/persistence.cpp:1070-1114 | any bytes are read as a store exactly when they have no such fault and what follows the header is a sequence of the payload's records |
| `KnownEncodings.KnownStoreHeader` | src/persistence.cpp:1026-1049 | the exact bytes of a store header |
| `StoreFile.DamageIsNoticed` | src/persistence.cpp:1087-1102 | a file whose header differs in one byte is rejected, and a damaged payload is accepted only if its SHA-256 digest is the same |
| `StoreFile.WriteStore` | src/persistence.cpp:1026-1049 | the header is written field by field around the payload |
| `StoreFile.ReadStore` | src/persistence.cpp:1070-1114 | the checks run in the specified order |

## Left out

- Sockets, threads, locks, file access, atomic replacement and path checks: a lock's critical section is one step, and files are byte sequences.
- The publication journal, the attempt journal, explanations, statistics, diffs and reports: they are never read back by the logic.
- History summaries of retired generations, arrival sequences, acceptance generations and touched marks: written, and read only for display.
- The publisher and source evidence indexes: written and never read.
- The namespace index, the capabilities of a namespace, and snapshots scoped by kind or namespace: a snapshot takes any list of known entities.
- The interning of capability identifiers as integer keys: capabilities are keyed by their identifiers.
- Default reasons: a reason that is not set stays 0 instead of becoming a default token.
- Exhaustion of generation and epoch counters.
- The explanation and the evidence list that Query returns beside the resolution, QueryEntity, the entity listing and the registry-wide digest: read-only views of entities that add easy members.
- PublishBatch: publications one after another, each as modelled.
- The canonical descriptor tables: a descriptor is an identifier, two flags and an abstract acceptance test.
- The grammar of composite identifiers (capability, namespace, entity): an abstract test in the store codec.
- Payload codecs of the wire messages, including incremental edits, which the encoder writes differently from what the decoder reads.
- Rendering, parsing and naming of units, protocols, versions and digests as text.
- The publisher client, its cache and its reconnection.
- Host discovery, synthetic profiles, command line tools, examples and benchmarks.
- StorePayload.EncodePayload: rows are sequences of typed fields described by a table of shapes, so one loop stands for the writer functions of claims, entities, grants and the other records; the order, width and bounds of the fields are those of each writer.
- StorePayload.PayloadRoundTrip: stated for payload rows in the decoder's bounds. The rows Save builds from a registry need not be in them, so it does not hold of every saved registry; `StoredRegistry.SavedIsReadExactly` has the exact condition.
- StoredRegistry.SavedIsReadExactly: the history of retired generations and the descriptions of scopes, which the registry model leaves out, are empty lists and texts in the rows.
- Coordinator.StepKeepsOk: requests other than publications and fences, and saving after a mutation, change no modelled state and have no step of their own.
- LiveCoordinator.CapabilityCoordinator.ServeConnection: states the thread's run when no other thread steps in between; interleavings are covered by the state machine.
- LiveRegistry.CapabilityRegistry.Load: takes the payloads that Save can build; hand-made payloads that decode but break the registry's invariant (an entity twice, a claim without its capability) are not modelled.
- ArrivalOrder.ObservationsCommute: asks for room for two more records in every capability both observations claim; without it the evidence list may be trimmed or the later observation refused, exactly when `ArrivalOrder.LaterObservationCommitsExactly` says.
- FileRecovery.FileRestoresRegistry: identifiers are parsed from their texts by any function that undoes their spelling; the parsers themselves are not modelled.
