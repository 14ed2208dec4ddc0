/** The registry as the object it is: fields that every mutation updates in place,
    with the reverse index kept alongside. Each method is proved against the
    function of RegistrySteps that says what the mutation does. */
module LiveRegistry {
  import opened Sequences
  import opened Evidence
  import opened RegistryState
  import opened EvidenceInvariant
  import opened EvidenceLists
  import opened RegistryIndex
  import opened RegistrySteps
  import opened RegistryInvariant
  import opened LifecycleInvariant
  import opened Recovery
  import opened RecoveryLoops
  import opened SourceInvalidation

  // ----- specifications of partly finished loops -----

  ghost function MarkOne(entity: Entity, c: Id, mark: Mark): Entity
    requires c in entity.capabilities
  {
    entity.(capabilities := entity.capabilities[c := MarkEntry(c, entity.capabilities[c], mark)])
  }

  ghost function MarkSome(entity: Entity, mark: Mark, marked: set<Id>): Entity {
    entity.(capabilities := map c | c in entity.capabilities ::
              if c in marked then MarkEntry(c, entity.capabilities[c], mark) else entity.capabilities[c])
  }

  lemma MarkSomeStep(entity: Entity, mark: Mark, marked: set<Id>, c: Id)
    requires c in entity.capabilities && c !in marked
    ensures c in MarkSome(entity, mark, marked).capabilities
    ensures MarkOne(MarkSome(entity, mark, marked), c, mark) == MarkSome(entity, mark, marked + {c})
  {
    hide MarkEntry;
  }

  lemma MarkSomeEnds(entity: Entity, mark: Mark)
    ensures MarkSome(entity, mark, {}) == entity
    ensures MarkSome(entity, mark, entity.capabilities.Keys) == MarkAll(entity, mark)
  {
    hide MarkEntry;
    assert MarkSome(entity, mark, {}).capabilities == entity.capabilities;
    assert MarkSome(entity, mark, entity.capabilities.Keys).capabilities == MarkAll(entity, mark).capabilities;
  }

  /** Absence claims for the given capabilities. */
  ghost function AbsencesFor(grant: Grant, request: Request, ids: seq<Id>): seq<Claim> {
    seq(|ids|, i requires 0 <= i < |ids| => AbsenceClaim(grant, request, ids[i]))
  }

  lemma {:induction false} AbsentPrefix(env: Environment, grant: Grant, claims: seq<Claim>,
                                        descriptors: seq<Descriptor>,
                                       k: nat) returns (rest: seq<Id>)
    requires k <= |descriptors|
    ensures AbsentCapabilities(env, grant, claims, descriptors) ==
            AbsentCapabilities(env, grant, claims, descriptors[..k]) + rest
    decreases |descriptors| - k
  {
    if k == |descriptors| {
      assert descriptors[..k] == descriptors;
      rest := [];
    } else {
      var later := AbsentPrefix(env, grant, claims, descriptors, k + 1);
      assert descriptors[..k + 1][..k] == descriptors[..k];
      var front := AbsentCapabilities(env, grant, claims, descriptors[..k]);
      rest := AbsentCapabilities(env, grant, claims, descriptors[..k + 1])[|front|..] + later;
    }
  }

  /** Applying one more claim after a list of accepted ones. */
  lemma ApplyClaimsSnoc(options: Options, author: Author, entity: Entity, claims: seq<Claim>, claim: Claim, reason: Id)
    requires ApplyClaims(options, author, entity, claims, reason).error == None
    ensures ApplyClaims(options, author, entity, claims + [claim], reason) ==
            ApplyClaim(options, author, ApplyClaims(options, author, entity, claims, reason).entity, claim, reason)
  {
    hide ApplyClaim;
    ApplyClaimsConcat(options, author, entity, claims, [claim], reason);
    var next := ApplyClaims(options, author, entity, claims, reason).entity;
    assert [claim][1..] == [];
    assert ApplyClaims(options, author, next, [claim], reason) ==
           var first := ApplyClaim(options, author, next, claim, reason);
           if first.error.Some? then first else ApplyClaims(options, author, first.entity, [], reason);
  }

  /** A refusal part of the way through the absence claims is the refusal of all of them. */
  lemma AbsencesRefused(env: Environment, grant: Grant, request: Request, author: Author, entity: Entity, k: nat)
    requires k <= |env.descriptors| && grant.exclusive && request.coverage.FullEnumeration?
    requires var ids := AbsentCapabilities(env, grant, request.claims, env.descriptors[..k]);
             ApplyClaims(env.options, author, entity, AbsencesFor(grant, request, ids), request.reason).error.Some?
    ensures var ids := AbsentCapabilities(env, grant, request.claims, env.descriptors[..k]);
            ApplyClaims(env.options, author, entity, AbsenceClaims(env, grant, request), request.reason) ==
            ApplyClaims(env.options, author, entity, AbsencesFor(grant, request, ids), request.reason)
  {
    hide ApplyClaims, AbsentCapabilities;
    var ids := AbsentCapabilities(env, grant, request.claims, env.descriptors[..k]);
    var rest := AbsentPrefix(env, grant, request.claims, env.descriptors, k);
    assert AbsenceClaims(env, grant, request) == AbsencesFor(grant, request, ids) + AbsencesFor(grant, request, rest);
    ApplyClaimsConcat(env.options, author, entity, AbsencesFor(grant, request, ids), AbsencesFor(grant, request, rest),
                      request.reason);
  }

  // ----- admission loops -----

  method CheckEveryClaim(env: Environment, grant: Grant, claims: seq<Claim>) returns (error: Option<Error>)
    ensures error == CheckClaims(env, grant, claims, {})
  {
    hide CheckClaim;
    error := None;
    var seen := {};
    var k := 0;
    while k < |claims|
      invariant k <= |claims| && error == None
      invariant CheckClaims(env, grant, claims[k..], seen) == CheckClaims(env, grant, claims, {})
    {
      assert claims[k..][1..] == claims[k + 1..];
      error := CheckClaim(env, grant, claims[k], seen);
      if error.Some? {
        return;
      }
      seen := seen + {claims[k].capability};
      k := k + 1;
    }
    assert claims[k..] == [];
  }

  method CheckEveryEdit(env: Environment, grant: Grant, edits: seq<Edit>) returns (error: Option<Error>)
    ensures error == CheckEdits(env, grant, edits)
  {
    hide CheckEdit;
    error := None;
    var k := 0;
    while k < |edits|
      invariant k <= |edits| && error == None
      invariant CheckEdits(env, grant, edits[k..]) == CheckEdits(env, grant, edits)
    {
      assert edits[k..][1..] == edits[k + 1..];
      error := CheckEdit(env, grant, edits[k]);
      if error.Some? {
        return;
      }
      k := k + 1;
    }
    assert edits[k..] == [];
  }

  /** Step 7: the newest remembered attempt first, then all of them. */
  method ClassifyAttempt(replay: seq<ReplayRecord>, attempt: Id, content: Content) returns (answer: Option<Outcome>)
    ensures answer == ClassifyReplay(replay, attempt, content)
  {
    if replay == [] {
      return None;
    }
    var latest := replay[|replay| - 1];
    if latest.attempt == attempt {
      return Some(if latest.content == content then Replayed else Rejected(DuplicateAttemptConflict));
    }
    answer := None;
    for k := 0 to |replay|
      invariant answer == None && !Remembers(replay[..k], attempt)
    {
      if replay[k].attempt == attempt {
        return Some(Rejected(StaleReplay));
      }
      assert replay[..k + 1] == replay[..k] + [replay[k]];
    }
    assert replay[..|replay|] == replay;
  }

  lemma CommitForgetsEntity(env: Environment, st: State, put: Entity, before: Entity, after: Entity, request: Request)
    requires request.Instance() in st.publishers && request.scope in st.authorities
    ensures Commit(env, PutEntity(st, request.entity, put), before, after, request) ==
            Commit(env, st, before, after, request)
  {
    hide CommitEntity, SemanticChange, ContentOf;
    var entities, e := st.entities, request.entity;
    var g := if SemanticChange(before, after) then st.registryGeneration + 1 else st.registryGeneration;
    var x := CommitEntity(before, after, request, g);
    assert entities[e := put][e := x] == entities[e := x];
  }

  lemma CommitSpelledOut(env: Environment, st: State, before: Entity, after: Entity, request: Request)
    requires request.Instance() in st.publishers && request.scope in st.authorities
    ensures var generation := if SemanticChange(before, after) then st.registryGeneration + 1
            else st.registryGeneration;
            var entity := CommitEntity(before, after, request, generation);
            var runtime := st.publishers[request.Instance()];
            var record := ReplayRecord(request.attempt, request.publication,
                                       ContentOf(request, st.authorities[request.scope]));
            Commit(env, st, before, after, request) ==
            (State(st.epoch, generation, st.authorities,
                   st.publishers[request.Instance() := runtime.(replay := PushReplay(env, runtime.replay, record))],
                   st.fencedBoots, st.fences, st.entities[request.entity := entity]),
             Committed(if before.published.Some? then before.published.value.setGeneration else 0,
                       entity.setGeneration, SemanticChange(before, after)))
  {
    hide CommitEntity, SemanticChange, ContentOf, PushReplay;
  }

  // ----- evidence that fences protect -----

  method EntityOwns(entity: Entity, boot: Id) returns (owns: bool)
    ensures owns <==> OwnsCurrent(entity, boot)
  {
    owns := false;
    var rest := entity.capabilities.Keys;
    while rest != {} && !owns
      invariant rest <= entity.capabilities.Keys
      invariant owns ==> OwnsCurrent(entity, boot)
      invariant !owns ==>
                  forall c, r :: c in entity.capabilities && c !in rest && r in entity.capabilities[c].evidence ==>
                    !(r.key.boot == boot && IsCurrent(r))
      decreases |rest|, !owns
    {
      var c :| c in rest;
      owns := EvidenceOwns(entity.capabilities[c].evidence, boot);
      rest := rest - {c};
    }
  }

  method EvidenceOwns(evidence: seq<Record>, boot: Id) returns (owns: bool)
    ensures owns <==> exists r :: r in evidence && r.key.boot == boot && IsCurrent(r)
  {
    for k := 0 to |evidence|
      invariant forall r :: r in evidence[..k] ==> !(r.key.boot == boot && IsCurrent(r))
    {
      if evidence[k].key.boot == boot && IsCurrent(evidence[k]) {
        return true;
      }
      assert evidence[..k + 1] == evidence[..k] + [evidence[k]];
    }
    assert evidence[..|evidence|] == evidence;
    return false;
  }

  lemma {:induction false} FirstEvictableIs(entities: map<Id, Entity>, fences: seq<Fence>, k: nat)
    requires k <= |fences| && forall j :: 0 <= j < k ==> OwnsCurrentEvidence(entities, fences[j].boot)
    requires k < |fences| ==> !OwnsCurrentEvidence(entities, fences[k].boot)
    ensures FirstEvictable(entities, fences) == k
  {
    hide OwnsCurrentEvidence;
    if k > 0 {
      FirstEvictableIs(entities, fences[1..], k - 1);
    }
  }

  lemma RefreshKeepsHeader(entity: Entity, registryGeneration: nat)
    ensures var refreshed := Refresh(entity, registryGeneration);
            refreshed.id == entity.id && refreshed.capabilities == entity.capabilities
  {
  }

  lemma PutTwice(st: State, id: Id, a: Entity, b: Entity)
    ensures PutEntity(PutEntity(st, id, a), id, b) == PutEntity(st, id, b)
  {
    assert st.entities[id := a][id := b] == st.entities[id := b];
  }

  lemma MarkAllKeepsHeader(entity: Entity, mark: Mark)
    ensures var marked := MarkAll(entity, mark);
            marked.id == entity.id && marked.invalidated == entity.invalidated
  {
  }

  lemma SourceMarked(keys: map<Id, nat>, before: seq<Entity>, after: seq<Entity>, mark: Mark, registryGeneration: nat)
    requires KeysOk(keys, before) && KeysOk(keys, after)
    requires forall k :: 0 <= k < |before| ==> after[k] == MarkSource(before[k], mark, registryGeneration)
    ensures Directory(keys, after) == MarkSourceEverywhere(Directory(keys, before), mark, registryGeneration)
    ensures (exists k :: 0 <= k < |before| && before[k].capabilities != map[]) <==>
            AnyCapabilities(Directory(keys, before))
  {
    hide MarkSource;
    if k :| 0 <= k < |before| && before[k].capabilities != map[] {
      assert before[k].id in Directory(keys, before);
    }
  }

  // ----- recovery -----

  ghost function ResolveSome(entity: Entity, resolved: set<Id>): Entity {
    entity.(capabilities := map c | c in entity.capabilities ::
              if c in resolved then ResolvedEntry(c, entity.capabilities[c]) else entity.capabilities[c])
  }

  ghost function ResolvedEntry(c: Id, entry: Entry): Entry {
    entry.(resolution := Some(Resolve(c, entry.generation, entry.evidence)))
  }

  lemma ResolveSomeStep(entity: Entity, resolved: set<Id>, c: Id)
    requires c in entity.capabilities && c !in resolved
    ensures c in ResolveSome(entity, resolved).capabilities
    ensures ResolveSome(entity, resolved).capabilities[c] == entity.capabilities[c]
    ensures PutEntry(ResolveSome(entity, resolved), c, ResolvedEntry(c, entity.capabilities[c])) ==
            ResolveSome(entity, resolved + {c})
  {
    hide ResolvedEntry;
  }

  lemma ResolveSomeEnds(entity: Entity)
    ensures ResolveSome(entity, {}) == entity
    ensures ResolveSome(entity, entity.capabilities.Keys) == entity.(capabilities := ResolveAll(entity.capabilities))
  {
    hide Resolve;
    assert ResolveSome(entity, {}).capabilities == entity.capabilities;
    assert ResolveSome(entity, entity.capabilities.Keys).capabilities == ResolveAll(entity.capabilities);
  }

  /** What Load has read of an entity before it resolves and serves it. */
  ghost function ReadEntity(stored: StoredEntity): Entity {
    var bound := if stored.bound != 0 then stored.bound else stored.current;
    Entity(stored.id, stored.current, bound, stored.hasSet, stored.setGeneration, stored.invalidated, stored.reason,
           LoadClaims(LoadCapabilities(stored.capabilities), stored.claims, stored.id, bound),
           LoadFloors(stored.floors), None)
  }

  lemma ReadThenResolved(stored: StoredEntity, registryGeneration: nat)
    ensures var read := ReadEntity(stored);
            && LoadEntity(stored, registryGeneration) ==
               Refresh(read.(capabilities := ResolveAll(read.capabilities)), registryGeneration)
            && AllUnresolved(read.capabilities)
  {
    var bound := if stored.bound != 0 then stored.bound else stored.current;
    CapabilitiesStartUnresolved(stored.capabilities);
    LoadedAreUnresolved(LoadCapabilities(stored.capabilities), stored.claims, stored.id, bound);
    hide ResolveAll, Materialize;
  }

  ghost predicate DistinctIds(stored: seq<StoredEntity>) {
    && (forall se :: se in stored ==> se.id != 0)
    && forall i, j :: 0 <= i < j < |stored| ==> stored[i].id != stored[j].id
  }

  lemma NotLoadedYet(stored: seq<StoredEntity>, k: nat)
    requires k < |stored| && DistinctIds(stored)
    ensures forall i :: 0 <= i < k ==> stored[i].id != stored[k].id
  {
  }

  lemma LoadOneMore(stored: seq<StoredEntity>, k: nat, registryGeneration: nat)
    requires k < |stored| && DistinctIds(stored)
    ensures LoadEntities(stored[..k + 1], registryGeneration) ==
            LoadEntities(stored[..k], registryGeneration)[stored[k].id := LoadEntity(stored[k], registryGeneration)]
  {
    hide LoadEntity;
    assert stored[..k + 1][..k] == stored[..k];
    assert stored[k] in stored;
  }

  lemma SavedIds(env: Environment, saved: State, payload: Payload)
    requires StateOk(env, saved) && Saves(saved, payload)
    ensures DistinctIds(payload.entities)
  {
    SavedIdsAreSet(ContextOf(env, saved), saved.entities, payload.entities);
  }

  // ----- the registry -----

  class CapabilityRegistry {
    const env: Environment
    var epoch: nat
    var registryGeneration: nat
    var authorities: map<Id, Grant>
    var publishers: map<PublisherKey, Runtime>
    var fencedBoots: set<Id>
    var fences: seq<Fence>
    var keys: map<Id, nat>
    var slots: seq<Entity>
    var reverse: Buckets
    var revalidation: set<(Id, Id)>
    /** A generation was retired since the registry was created or loaded. */
    ghost var retired: bool

    ghost predicate Wired(): (wired: bool)
      reads `keys, `slots, `reverse, `revalidation, `retired
      ensures wired ==> KeysOk(keys, slots)
    {
      && KeysOk(keys, slots)
      && IndexComplete(reverse, revalidation, slots)
      && (!retired ==> IndexExact(reverse, revalidation, slots))
    }

    /** The state that the specification speaks of. */
    ghost function Contents(): State
      requires KeysOk(keys, slots)
      reads this
    {
      State(epoch, registryGeneration, authorities, publishers, fencedBoots, fences, Directory(keys, slots))
    }

    ghost predicate Valid()
      reads this
    {
      env.Valid() && Wired() && StateOk(env, Contents())
    }

    // ----- index -----

    method RemoveFromReverse(i: nat, c: Id, s: CapabilityState)
      requires BucketsSorted(reverse)
      modifies `reverse
      ensures BucketsSorted(reverse)
      ensures forall d, t, k :: k in Bucket(reverse, d, t) <==>
                k in old(Bucket(reverse, d, t)) && !(d == c && t == s && k == i)
    {
      if (c, s) !in reverse {
        return;
      }
      var bucket := EraseSorted(reverse[(c, s)], i);
      reverse := reverse[(c, s) := bucket];
    }

    method AddToReverse(i: nat, c: Id, s: CapabilityState)
      requires BucketsSorted(reverse)
      modifies `reverse
      ensures BucketsSorted(reverse)
      ensures forall d, t, k :: k in Bucket(reverse, d, t) <==>
                k in old(Bucket(reverse, d, t)) || (d == c && t == s && k == i)
    {
      var bucket := InsertSorted(Bucket(reverse, c, s), i);
      reverse := reverse[(c, s) := bucket];
    }

    method UpdateRevalidationIndex(id: Id, c: Id, previous: Option<CapabilityState>, current: CapabilityState)
      modifies `revalidation
      ensures revalidation == Requeued(old(revalidation), id, c, previous, current)
    {
      var was := previous.Some? && previous.value.RevalidationRequired?;
      var now := current.RevalidationRequired?;
      if was && !now {
        revalidation := revalidation - {(id, c)};
      } else if !was && now {
        revalidation := revalidation + {(id, c)};
      }
    }

    method Refile(i: nat, c: Id, previous: Option<CapabilityState>, state: CapabilityState)
      requires BucketsSorted(reverse)
      requires previous == Some(state) ==> i in Bucket(reverse, c, state)
      modifies `reverse
      ensures BucketsSorted(reverse) && Refiled(old(reverse), reverse, i, c, previous, state)
    {
      if previous.Some? && previous.value != state {
        RemoveFromReverse(i, c, previous.value);
        AddToReverse(i, c, state);
      } else if previous.None? {
        AddToReverse(i, c, state);
      }
    }

    /** Stores a freshly resolved entry and moves the capability between the index buckets. */
    method FinishResolution(i: nat, c: Id, entry: Entry)
      requires Wired() && i < |slots| && entry.resolution.Some?
      modifies `slots, `reverse, `revalidation
      ensures Wired()
      ensures slots == old(slots)[i := PutEntry(old(slots[i]), c, entry)]
    {
      var entity := slots[i];
      var previous := FiledState(entity, c);
      var state := entry.resolution.value.state;
      if previous == Some(state) {
        assert Resolved(slots, i, c, state);
      }
      KeysMakeSlotsDistinct(keys, slots);
      ReplacedSlot(keys, slots, i, PutEntry(entity, c, entry));
      hide Refiled, Resolved, Requeued, KeysOk, FiledState;
      Refile(i, c, previous, state);
      UpdateRevalidationIndex(entity.id, c, previous, state);
      slots := slots[i := PutEntry(entity, c, entry)];
      StoredEntryKeepsIndex(old(reverse), reverse, old(revalidation), old(slots), i, c, entry);
    }

    // ----- evidence -----

    method MarkEvidence(i: nat, c: Id, mark: Mark)
      requires Wired() && i < |slots| && c in slots[i].capabilities
      modifies `slots, `reverse, `revalidation
      ensures Wired()
      ensures slots == old(slots)[i := MarkOne(old(slots[i]), c, mark)]
    {
      hide Resolve, Wired, KeysOk, Touches, MarkRecords;
      var entry := slots[i].capabilities[c];
      var marked, touched := MarkList(entry.evidence, mark);
      if !touched {
        assert slots[i].capabilities[c := entry] == slots[i].capabilities;
        return;
      }
      var resolution := ComputeResolution(c, entry.generation + 1, marked);
      FinishResolution(i, c, Entry(entry.generation + 1, marked, Some(resolution)));
    }

    /** Marks every capability of one entity. */
    method MarkCapabilities(i: nat, mark: Mark)
      requires Wired() && i < |slots|
      modifies `slots, `reverse, `revalidation
      ensures Wired()
      ensures slots == old(slots)[i := MarkAll(old(slots[i]), mark)]
    {
      hide Wired, KeysOk, MarkEntry;
      ghost var entity := slots[i];
      var rest := slots[i].capabilities.Keys;
      MarkSomeEnds(entity, mark);
      assert slots == slots[i := entity];
      assert entity.capabilities.Keys - rest == {};
      while rest != {}
        invariant Wired() && rest <= entity.capabilities.Keys
        invariant i < |slots| && slots == old(slots)[i := MarkSome(entity, mark, entity.capabilities.Keys - rest)]
      {
        var c :| c in rest;
        MarkSomeStep(entity, mark, entity.capabilities.Keys - rest, c);
        MarkEvidence(i, c, mark);
        assert entity.capabilities.Keys - rest + {c} == entity.capabilities.Keys - (rest - {c});
        rest := rest - {c};
      }
      assert entity.capabilities.Keys - {} == entity.capabilities.Keys;
    }

    /** Replaces the contents of a slot without changing what is filed in the index. */
    method ReplaceUnfiled(i: nat, entity: Entity)
      requires Wired() && i < |slots| && entity.id == slots[i].id
      requires forall c :: FiledState(entity, c) == FiledState(slots[i], c)
      modifies `slots
      ensures Wired()
      ensures slots == old(slots)[i := entity]
    {
      ReplacedSlot(keys, slots, i, entity);
      forall c, s ensures Resolved(slots[i := entity], i, c, s) <==> Resolved(slots, i, c, s) {
        assert FiledState(entity, c) == FiledState(slots[i], c);
      }
      SameStatesKeepIndex(reverse, revalidation, slots, i, entity);
      slots := slots[i := entity];
    }

    method ApplyClaim(i: nat, author: Author, claim: Claim, reason: Id) returns (error: Option<Error>)
      requires Wired() && i < |slots|
      modifies `slots, `reverse, `revalidation
      ensures Wired()
      ensures var applied := RegistryState.ApplyClaim(env.options, author, old(slots[i]), claim, reason);
              error == applied.error && slots == old(slots)[i := applied.entity]
    {
      hide Resolve, Wired, KeysOk, MarkRecords, Trim, HighestGeneration, Filter, Live;
      var entity, c, limit := slots[i], claim.capability, env.options.maxEvidence;
      if c !in entity.capabilities && |entity.capabilities| >= env.options.maxCapabilities {
        return Some(ClaimCountExceeded);
      }
      var entry := EntryOf(entity, c);
      var highest := FindHighestGeneration(entry.evidence, author.key);
      var marked, _ := MarkList(entry.evidence, Mark(LiveOf(author.key), Superseded, reason));
      var kept := TrimEvidence(marked, limit);
      var live := LiveEvidenceCount(kept);
      if live >= limit {
        ReplaceUnfiled(i, PutEntry(entity, c, entry.(evidence := kept)));
        return Some(EvidenceLimitExceeded);
      }
      var evidence := kept + [NewRecord(entity, author, claim, highest + 1)];
      var resolution := ComputeResolution(c, entry.generation + 1, evidence);
      FinishResolution(i, c, Entry(entry.generation + 1, evidence, Some(resolution)));
      return None;
    }

    method ApplyClaims(i: nat, author: Author, claims: seq<Claim>, reason: Id) returns (error: Option<Error>)
      requires Wired() && i < |slots|
      modifies `slots, `reverse, `revalidation
      ensures Wired()
      ensures var applied := RegistryState.ApplyClaims(env.options, author, old(slots[i]), claims, reason);
              error == applied.error && slots == old(slots)[i := applied.entity]
    {
      hide Wired, KeysOk, RegistryState.ApplyClaim;
      error := None;
      var k := 0;
      while k < |claims|
        invariant k <= |claims| && error == None && Wired() && i < |slots| && slots == old(slots)[i := slots[i]]
        invariant RegistryState.ApplyClaims(env.options, author, slots[i], claims[k..], reason) ==
                  RegistryState.ApplyClaims(env.options, author, old(slots[i]), claims, reason)
      {
        assert claims[k..][1..] == claims[k + 1..];
        error := ApplyClaim(i, author, claims[k], reason);
        if error.Some? {
          return;
        }
        k := k + 1;
      }
      assert claims[k..] == [];
    }

    /** The absence claims an exclusive full enumeration implies, applied descriptor by descriptor. */
    method ApplyAbsences(i: nat, author: Author, grant: Grant, request: Request) returns (error: Option<Error>)
      requires Wired() && i < |slots| && grant.exclusive && request.coverage.FullEnumeration?
      modifies `slots, `reverse, `revalidation
      ensures Wired()
      ensures var applied := RegistryState.ApplyClaims(env.options, author, old(slots[i]),
                                                       AbsenceClaims(env, grant, request), request.reason);
              error == applied.error && slots == old(slots)[i := applied.entity]
    {
      hide Wired, KeysOk, RegistryState.ApplyClaim, RegistryState.ApplyClaims;
      error := None;
      var mentioned := set claim | claim in request.claims :: claim.capability;
      ghost var ids: seq<Id> := [];
      ghost var entity := slots[i];
      NoClaims(entity, author, request.reason);
      assert AbsencesFor(grant, request, ids) == [];
      for k := 0 to |env.descriptors|
        invariant error == None && Wired() && i < |slots| && slots == old(slots)[i := slots[i]]
        invariant ids == AbsentCapabilities(env, grant, request.claims, env.descriptors[..k])
        invariant RegistryState.ApplyClaims(env.options, author, entity, AbsencesFor(grant, request, ids),
                                            request.reason)
                  == Applied(slots[i], None)
      {
        var d := env.descriptors[k];
        assert env.descriptors[..k + 1][..k] == env.descriptors[..k];
        assert d.id in mentioned <==> Mentions(request.claims, d.id);
        if d.absenceIsNegative && d.id != 0 && d.id !in mentioned && env.namespaceOf(d.id) in grant.namespaces {
          var claim := AbsenceClaim(grant, request, d.id);
          ghost var done := AbsencesFor(grant, request, ids);
          ids := ids + [d.id];
          assert AbsencesFor(grant, request, ids) == done + [claim];
          ApplyClaimsSnoc(env.options, author, entity, done, claim, request.reason);
          error := ApplyClaim(i, author, claim, request.reason);
          if error.Some? {
            AbsencesRefused(env, grant, request, author, entity, k + 1);
            return;
          }
        }
      }
      assert env.descriptors[..|env.descriptors|] == env.descriptors;
      assert AbsenceClaims(env, grant, request) == AbsencesFor(grant, request, ids);
    }

    lemma NoClaims(entity: Entity, author: Author, reason: Id)
      ensures RegistryState.ApplyClaims(env.options, author, entity, [], reason) == Applied(entity, None)
    {
    }

    method ApplyEdit(i: nat, author: Author, edit: Edit, reason: Id, superseded: bool) returns (error: Option<Error>)
      requires Wired() && i < |slots|
      modifies `slots, `reverse, `revalidation
      ensures Wired()
      ensures var applied := RegistryState.ApplyEdit(env.options, author, old(slots[i]), edit, reason, superseded);
              error == applied.error && slots == old(slots)[i := applied.entity]
    {
      hide Wired, KeysOk, RegistryState.ApplyClaim, MarkEntry;
      error := None;
      match edit.operation
      case WithdrawClaim =>
        if edit.capability in slots[i].capabilities {
          MarkEvidence(i, edit.capability, Mark(LiveOf(author.key), Superseded, reason));
        }
      case SupersedeSourceEvidence =>
        if !superseded {
          MarkCapabilities(i, Mark(LiveOf(author.key), Superseded, reason));
        }
      case _ => error := ApplyClaim(i, author, EditClaim(edit), reason);
    }

    method ApplyEdits(i: nat, author: Author, edits: seq<Edit>, reason: Id) returns (error: Option<Error>)
      requires Wired() && i < |slots|
      modifies `slots, `reverse, `revalidation
      ensures Wired()
      ensures var applied := RegistryState.ApplyEdits(env.options, author, old(slots[i]), edits, reason, false);
              error == applied.error && slots == old(slots)[i := applied.entity]
    {
      hide Wired, KeysOk, RegistryState.ApplyEdit;
      error := None;
      var superseded := false;
      var k := 0;
      while k < |edits|
        invariant k <= |edits| && error == None && Wired() && i < |slots| && slots == old(slots)[i := slots[i]]
        invariant RegistryState.ApplyEdits(env.options, author, slots[i], edits[k..], reason, superseded) ==
                  RegistryState.ApplyEdits(env.options, author, old(slots[i]), edits, reason, false)
      {
        assert edits[k..][1..] == edits[k + 1..];
        error := ApplyEdit(i, author, edits[k], reason, superseded);
        if error.Some? {
          return;
        }
        superseded := superseded || edits[k].operation.SupersedeSourceEvidence?;
        k := k + 1;
      }
      assert edits[k..] == [];
    }

    method ClearForSnapshot(i: nat, grant: Grant, request: Request)
      requires Wired() && i < |slots|
      modifies `slots, `reverse, `revalidation
      ensures Wired()
      ensures slots == old(slots)[i := RegistryState.ClearForSnapshot(old(slots[i]), grant, request)]
    {
      hide Wired, KeysOk, MarkAll;
      if grant.exclusive {
        MarkCapabilities(i, Mark(LiveProcessBoundOfOthers(request.Instance()), Superseded, request.reason));
      }
      MarkCapabilities(i, Mark(LiveOf(request.Key()), Superseded, request.reason));
    }

    /** Step 10 of a publication: the three publication modes. */
    method ApplyRequest(i: nat, grant: Grant, request: Request) returns (error: Option<Error>)
      requires Wired() && i < |slots|
      modifies `slots, `reverse, `revalidation
      ensures Wired()
      ensures var applied := RegistryState.ApplyRequest(env, epoch, grant, old(slots[i]), request);
              error == applied.error && slots == old(slots)[i := applied.entity]
    {
      hide Wired, KeysOk, RegistryState.ClearForSnapshot, RegistryState.ApplyClaims, RegistryState.ApplyEdits;
      var author := AuthorOf(epoch, request);
      match request.mode
      case FullSnapshot =>
        ClearForSnapshot(i, grant, request);
        error := ApplyClaims(i, author, Covered(request.claims, request.coverage), request.reason);
        if error.Some? {
          return;
        }
        NoClaims(slots[i], author, request.reason);
        if grant.exclusive && request.coverage.FullEnumeration? {
          error := ApplyAbsences(i, author, grant, request);
        }
      case PartialObservation =>
        error := ApplyClaims(i, author, Covered(request.claims, request.coverage), request.reason);
      case Incremental =>
        error := ApplyEdits(i, author, request.edits, request.reason);
    }

    // ----- publication -----

    /** Steps 1 to 5: nothing is changed. */
    method CheckAdmission(request: Request) returns (error: Option<Error>)
      requires KeysOk(keys, slots)
      ensures error == Admit(env, Contents(), request)
    {
      hide KeysOk, CheckShape, CheckClaims, CheckEdits;
      error := CheckShape(request);
      if error.Some? {
        return;
      }
      if request.epoch == 0 || request.epoch < epoch {
        return Some(CoordinatorEpochStale);
      }
      if request.epoch > epoch {
        return Some(CoordinatorEpochUnknown);
      }
      if request.boot in fencedBoots {
        return Some(WorkerBootFenced);
      }
      if request.Instance() !in publishers {
        return Some(UnauthorizedPublisher);
      }
      var runtime := publishers[request.Instance()];
      if !runtime.active {
        return Some(WorkerBootStale);
      }
      if runtime.scope != request.scope {
        return Some(AuthorityScopeViolation);
      }
      if runtime.epoch != epoch {
        return Some(CoordinatorEpochStale);
      }
      if request.scope !in authorities {
        return Some(UnknownAuthorityScope);
      }
      var grant := authorities[request.scope];
      if request.mode !in grant.modes {
        return Some(PublicationModeNotAuthorized);
      }
      if env.kindOf(request.entity) !in grant.entityKinds {
        return Some(AuthorityScopeViolation);
      }
      if |request.claims| > grant.maxClaims {
        return Some(ClaimCountExceeded);
      }
      error := CheckEveryClaim(env, grant, request.claims);
      if error.Some? {
        return;
      }
      error := CheckEveryEdit(env, grant, request.edits);
    }

    method AddEntity(id: Id, generation: nat) returns (i: nat)
      requires Wired() && id !in keys
      modifies `keys, `slots
      ensures Wired() && id in keys && i == keys[id]
      ensures Contents() == PutEntity(old(Contents()), id, NewEntity(id, generation))
    {
      var entity := NewEntity(id, generation);
      AddedSlot(keys, slots, entity);
      NewSlotKeepsIndex(reverse, revalidation, slots, entity);
      i := |slots|;
      keys := keys[id := i];
      slots := slots + [entity];
    }

    /** Drops everything the entity holds. The index is left alone. */
    method RetireSlot(i: nat, generation: nat)
      requires Wired() && i < |slots|
      modifies `slots, `retired
      ensures Wired() && retired
      ensures Contents() == PutEntity(old(Contents()), old(slots[i].id), RetireGeneration(old(slots[i]), generation))
    {
      ReplacedSlot(keys, slots, i, RetireGeneration(slots[i], generation));
      RetirementAndIndex(reverse, revalidation, slots, i, generation);
      slots := slots[i := RetireGeneration(slots[i], generation)];
      retired := true;
    }

    lemma KnownEntities()
      requires KeysOk(keys, slots)
      ensures Contents().entities.Keys == keys.Keys && |Contents().entities| == |slots|
      ensures forall id :: id in keys ==>
                keys[id] < |slots| && Contents().entities[id] == slots[keys[id]] && slots[keys[id]].id == id
    {
      DirectorySize(keys, slots);
    }

    lemma KnownEntity(id: Id)
      requires Wired() && id in keys
      ensures KeysOk(keys, slots) && id in Contents().entities
      ensures keys[id] < |slots| && Contents().entities[id] == slots[keys[id]] && slots[keys[id]].id == id
    {
    }

    /** Step 6: finds, creates or retires the addressed entity. */
    method LocateSlot(request: Request) returns (i: nat, error: Option<Error>)
      requires Wired()
      modifies `keys, `slots, `registryGeneration, `retired
      ensures Wired()
      ensures (Contents(), error) == Locate(env, old(Contents()), request)
      ensures error.None? ==> request.entity in keys && i == keys[request.entity]
    {
      hide IndexComplete, IndexExact, NewEntity, RetireGeneration, Directory, KeysOk;
      KnownEntities();
      i, error := 0, None;
      if request.entity !in keys {
        if |slots| >= env.options.maxEntities {
          error := Some(TooManyItems);
          return;
        }
        i := AddEntity(request.entity, request.entityGeneration);
        return;
      }
      i := keys[request.entity];
      if request.entityGeneration < slots[i].current {
        error := Some(EntityGenerationStale);
        return;
      }
      if request.entityGeneration > slots[i].current {
        RetireSlot(i, request.entityGeneration);
        registryGeneration := registryGeneration + 1;
      }
    }

    /** The set generation moves just when the digest did; the set is served anew either way. */
    method Settle(before: Entity, after: Entity, request: Request)
      returns (entity: Entity, semantic: bool, generation: nat)
      ensures semantic == SemanticChange(before, after)
      ensures generation == if semantic then registryGeneration + 1 else registryGeneration
      ensures entity == CommitEntity(before, after, request, generation)
      ensures entity.id == after.id && entity.capabilities == after.capabilities
    {
      hide SortedResolutions, Views, RaiseFloor;
      entity, generation := after, registryGeneration;
      semantic := before.published.None?
                  || DigestOf(before.published) != Some(Views(SortedResolutions(after.capabilities)));
      if semantic {
        entity := entity.(setGeneration := entity.setGeneration + 1);
        generation := generation + 1;
      }
      entity := entity.(hasSet := true, bound := entity.current, invalidated := false, reason := 0);
      entity := Refresh(entity, generation);
      entity := entity.(highWater := RaiseFloor(entity.highWater, request.Key(), request.sourceGeneration));
    }

    /** RegisterReplay: the window forgets its oldest attempt when it is full. */
    method RememberAttempt(key: PublisherKey, record: ReplayRecord)
      requires key in publishers
      modifies `publishers
      ensures publishers == old(publishers)[key :=
                old(publishers)[key].(replay := PushReplay(env, old(publishers)[key].replay, record))]
    {
      var replay := publishers[key].replay;
      if |replay| >= env.options.maxReplay && replay != [] {
        replay := replay[1..];
      }
      publishers := publishers[key := publishers[key].(replay := replay + [record])];
    }

    /** Replaces everything of an entity but its capabilities. */
    method ReplaceHeader(i: nat, entity: Entity)
      requires Wired() && i < |slots| && entity.id == slots[i].id && entity.capabilities == slots[i].capabilities
      modifies `slots
      ensures Wired() && slots == old(slots)[i := entity]
      ensures Contents() == PutEntity(old(Contents()), entity.id, entity)
    {
      hide IndexComplete, IndexExact, Directory;
      ReplacedSlot(keys, slots, i, entity);
      ReplaceUnfiled(i, entity);
    }

    /** Step 11: at most one set generation and one registry generation per commit. */
    method CommitSlot(i: nat, before: Entity, request: Request) returns (outcome: Outcome)
      requires Wired() && request.entity in keys && i == keys[request.entity]
      requires request.Instance() in publishers && request.scope in authorities
      modifies `slots, `registryGeneration, `publishers
      ensures Wired()
      ensures (Contents(), outcome) == Commit(env, old(Contents()), before, old(slots[i]), request)
    {
      hide Wired, ContentOf, Directory, KeysOk, PushReplay, SemanticChange, CommitEntity, Commit;
      KnownEntity(request.entity);
      var entity, semantic, generation := Settle(before, slots[i], request);
      CommitSpelledOut(env, Contents(), before, slots[i], request);
      var previous := if before.published.Some? then before.published.value.setGeneration else 0;
      outcome := Committed(previous, entity.setGeneration, semantic);
      registryGeneration := generation;
      RememberAttempt(request.Instance(), ReplayRecord(request.attempt, request.publication,
                                                       ContentOf(request, authorities[request.scope])));
      ReplaceHeader(i, entity);
    }

    /** Steps 7 to 11 on the located entity. */
    method PublishAt(i: nat, request: Request) returns (outcome: Outcome)
      requires Wired() && request.entity in keys && i == keys[request.entity]
      requires request.Instance() in publishers && request.scope in authorities
      modifies `slots, `reverse, `revalidation, `registryGeneration, `publishers
      ensures Wired()
      ensures (Contents(), outcome) == PublishLocated(env, old(Contents()), request)
    {
      hide Wired, KeysOk, Directory, ContentOf, RegistryState.ApplyRequest, ClassifyReplay, Commit, CheckGenerations;
      KnownEntity(request.entity);
      var grant := authorities[request.scope];
      var entity := slots[i];
      var replayed := ClassifyAttempt(publishers[request.Instance()].replay, request.attempt,
                                      ContentOf(request, grant));
      if replayed.Some? {
        return replayed.value;
      }
      var stale := CheckGenerations(entity, request);
      if stale.Some? {
        return Rejected(stale.value);
      }
      var error := ApplyRequest(i, grant, request);
      ApplyRequestKeepsHeader(env, epoch, grant, entity, request);
      ReplacedSlot(keys, old(slots), i, slots[i]);
      if error.Some? {
        return Rejected(error.value);
      }
      ghost var after := slots[i];
      outcome := CommitSlot(i, entity, request);
      CommitForgetsEntity(env, old(Contents()), after, entity, after, request);
    }

    method Publish(request: Request) returns (outcome: Outcome)
      requires Valid()
      modifies `keys, `slots, `reverse, `revalidation, `registryGeneration, `publishers, `retired
      ensures Valid()
      ensures (Contents(), outcome) == RegistrySteps.Publish(env, old(Contents()), request)
    {
      hide IndexComplete, IndexExact, Admit, Locate, PublishLocated, StateOk, KeysOk;
      PublishKeepsState(env, Contents(), request);
      var refused := CheckAdmission(request);
      if refused.Some? {
        return Rejected(refused.value);
      }
      var i, error := LocateSlot(request);
      if error.Some? {
        return Rejected(error.value);
      }
      outcome := PublishAt(i, request);
    }

    // ----- authorities and publisher instances -----

    method DeclareAuthority(grant: Grant) returns (error: Option<Error>)
      requires Valid()
      modifies `authorities
      ensures Valid()
      ensures (Contents(), error) == RegistrySteps.DeclareAuthority(env, old(Contents()), grant)
    {
      hide StateOk, Wired, KeysOk, Directory, CheckAuthority;
      DeclareKeepsState(env, Contents(), grant);
      error := CheckAuthority(grant);
      if error.Some? {
        return;
      }
      if grant.scope !in authorities && |authorities| >= env.options.maxAuthorities {
        return Some(TooManyItems);
      }
      authorities := authorities[grant.scope := grant];
    }

    method RegisterPublisher(publisher: Id, scope: Id, boot: Id) returns (error: Option<Error>)
      requires Valid()
      modifies `publishers
      ensures Valid()
      ensures (Contents(), error) == RegistrySteps.RegisterPublisher(env, old(Contents()), publisher, scope, boot)
    {
      hide StateOk, Wired, KeysOk, Directory;
      RegisterKeepsState(env, Contents(), publisher, scope, boot);
      if publisher == 0 || scope == 0 || boot == 0 {
        return Some(InvalidArgument);
      }
      if boot in fencedBoots {
        return Some(WorkerBootFenced);
      }
      if scope !in authorities {
        return Some(UnknownAuthorityScope);
      }
      var allowed := authorities[scope].allowedPublishers;
      if allowed != [] && publisher !in allowed {
        return Some(UnauthorizedPublisher);
      }
      var key := PublisherKey(publisher, boot);
      if key !in publishers && |publishers| >= env.options.maxPublishers {
        return Some(TooManyItems);
      }
      publishers := publishers[key := Runtime(scope, epoch, true, [])];
      return None;
    }

    method RetirePublisher(publisher: Id, boot: Id) returns (error: Option<Error>)
      requires Valid()
      modifies `publishers
      ensures Valid()
      ensures (Contents(), error) == RegistrySteps.RetirePublisher(old(Contents()), publisher, boot)
    {
      hide StateOk, Wired, KeysOk, Directory;
      RetireKeepsState(env, Contents(), publisher, boot);
      var key := PublisherKey(publisher, boot);
      if key !in publishers {
        return Some(UnknownPublisher);
      }
      publishers := publishers[key := publishers[key].(active := false)];
      return None;
    }

    // ----- fencing and epochs -----

    /** Marks every entity and serves its set anew. */
    method MarkEverySlot(mark: Mark)
      requires Wired()
      modifies `slots, `reverse, `revalidation
      ensures Wired()
      ensures Contents() ==
              old(Contents()).(entities := MarkEverywhere(old(Contents()).entities, mark, registryGeneration))
    {
      hide Wired, KeysOk, MarkAll, Refresh;
      ghost var before := slots;
      WiredKeys();
      for i := 0 to |slots|
        invariant Wired() && |slots| == |before|
        invariant forall k :: 0 <= k < i ==> slots[k] == Refresh(MarkAll(before[k], mark), registryGeneration)
        invariant forall k :: i <= k < |slots| ==> slots[k] == before[k]
      {
        MarkCapabilities(i, mark);
        var refreshed := Refresh(slots[i], registryGeneration);
        RefreshKeepsHeader(slots[i], registryGeneration);
        ReplaceHeader(i, refreshed);
      }
      WiredKeys();
      assert Contents().entities == MarkEverywhere(Directory(keys, before), mark, registryGeneration);
    }

    lemma WiredKeys()
      requires Wired()
      ensures KeysOk(keys, slots) && forall id :: id in keys ==> keys[id] < |slots|
    {
    }

    /** The publisher the fence record names: the last one met for the boot. */
    method FindOwner(boot: Id) returns (owner: Id)
      ensures if exists k :: k in publishers && k.boot == boot then PublisherKey(owner, boot) in publishers
              else owner == 0
    {
      owner := 0;
      var rest := publishers.Keys;
      while rest != {}
        invariant rest <= publishers.Keys
        invariant if exists k :: k in publishers && k !in rest && k.boot == boot
                  then PublisherKey(owner, boot) in publishers
                  else owner == 0
      {
        var key :| key in rest;
        if key.boot == boot {
          owner := key.publisher;
          assert key == PublisherKey(owner, boot);
        }
        rest := rest - {key};
      }
    }

    method OwnsEvidence(boot: Id) returns (owns: bool)
      requires KeysOk(keys, slots)
      ensures owns <==> OwnsCurrentEvidence(Contents().entities, boot)
    {
      hide OwnsCurrent;
      KnownEntities();
      owns := false;
      var i := 0;
      while i < |slots| && !owns
        invariant i <= |slots|
        invariant !owns ==> forall k :: 0 <= k < i ==> !OwnsCurrent(slots[k], boot)
        invariant owns ==> exists k :: 0 <= k < |slots| && OwnsCurrent(slots[k], boot)
      {
        owns := EntityOwns(slots[i], boot);
        i := i + 1;
      }
      if owns {
        var k :| 0 <= k < |slots| && OwnsCurrent(slots[k], boot);
        assert slots[k].id in Contents().entities;
      }
    }

    /** Evicts the oldest fence that protects no current evidence, if there is one. */
    method EvictFence() returns (evicted: bool)
      requires KeysOk(keys, slots)
      modifies `fences, `fencedBoots
      ensures var victim := FirstEvictable(old(Contents()).entities, old(fences));
              if victim == old(|fences|) then !evicted && fences == old(fences) && fencedBoots == old(fencedBoots)
              else evicted && fences == old(fences)[..victim] + old(fences)[victim + 1..]
                   && fencedBoots == old(fencedBoots) - {old(fences)[victim].boot}
    {
      hide OwnsCurrentEvidence, KeysOk;
      for k := 0 to |fences|
        invariant fences == old(fences) && fencedBoots == old(fencedBoots)
        invariant forall j :: 0 <= j < k ==> OwnsCurrentEvidence(Contents().entities, fences[j].boot)
      {
        var owns := OwnsEvidence(fences[k].boot);
        if !owns {
          FirstEvictableIs(Contents().entities, fences, k);
          fencedBoots := fencedBoots - {fences[k].boot};
          fences := fences[..k] + fences[k + 1..];
          return true;
        }
      }
      FirstEvictableIs(Contents().entities, fences, |fences|);
      return false;
    }

    method FenceWorkerBoot(boot: Id, reason: Id) returns (error: Option<Error>, owner: Id)
      requires Valid()
      modifies `fences, `fencedBoots, `publishers, `slots, `reverse, `revalidation, `registryGeneration
      ensures Valid()
      ensures OwnerOf(old(Contents()), boot, owner)
      ensures (Contents(), error) == RegistrySteps.FenceWorkerBoot(env, old(Contents()), boot, owner, reason)
    {
      hide StateOk, Wired, KeysOk, Directory, MarkEverywhere;
      ghost var before := Contents();
      owner := FindOwner(boot);
      FenceKeepsState(env, before, boot, owner, reason);
      if boot == 0 {
        error := Some(InvalidArgument);
        return;
      }
      if boot in fencedBoots {
        error := None;
        return;
      }
      if |fences| >= env.options.maxFences {
        var evicted := EvictFence();
        if !evicted {
          error := Some(TooManyItems);
          return;
        }
      }
      fencedBoots := fencedBoots + {boot};
      fences := fences + [Fence(boot, owner, reason)];
      publishers := publishers - {PublisherKey(owner, boot)};
      MarkEverySlot(BootMark(boot, reason));
      registryGeneration := registryGeneration + 1;
      error := None;
    }

    /** Fences the listed boots until the capacity is reached. */
    method FenceAll(boots: seq<Id>, reason: Id)
      modifies `fences, `fencedBoots
      ensures (fences, fencedBoots) == FenceListed(old(fences), old(fencedBoots), boots, env.options.maxFences, reason)
    {
      var k := 0;
      while k < |boots|
        invariant k <= |boots|
        invariant FenceListed(fences, fencedBoots, boots[k..], env.options.maxFences, reason) ==
                  FenceListed(old(fences), old(fencedBoots), boots, env.options.maxFences, reason)
      {
        assert boots[k..][1..] == boots[k + 1..];
        if boots[k] !in fencedBoots {
          if |fences| >= env.options.maxFences {
            return;
          }
          fencedBoots := fencedBoots + {boots[k]};
          fences := fences + [Fence(boots[k], 0, reason)];
        }
        k := k + 1;
      }
      assert boots[k..] == [];
    }

    method ListBoots() returns (boots: seq<Id>)
      ensures forall b :: b in boots <==> exists k :: k in publishers && k.boot == b
    {
      boots := [];
      var rest := publishers.Keys;
      while rest != {}
        invariant rest <= publishers.Keys
        invariant forall b :: b in boots <==> exists k :: k in publishers && k !in rest && k.boot == b
      {
        var key :| key in rest;
        assert forall b :: b in boots + [key.boot] <==> b in boots || b == key.boot;
        boots := boots + [key.boot];
        rest := rest - {key};
      }
    }

    method AdvanceCoordinatorEpoch(reason: Id) returns (boots: seq<Id>)
      requires Valid()
      modifies `epoch, `fences, `fencedBoots, `publishers, `slots, `reverse, `revalidation, `registryGeneration
      ensures Valid()
      ensures ListsBoots(old(Contents()), boots)
      ensures Contents() == AdvanceEpoch(env, old(Contents()), boots, reason)
    {
      hide StateOk, Wired, KeysOk, Directory, MarkEverywhere, FenceListed;
      epoch := epoch + 1;
      boots := ListBoots();
      AdvanceKeepsState(env, old(Contents()), boots, reason);
      publishers := map[];
      FenceAll(boots, reason);
      MarkEverySlot(EpochMark(reason));
      registryGeneration := registryGeneration + 1;
    }

    // ----- entity lifecycle -----

    method ObserveEntityGeneration(id: Id, generation: nat) returns (error: Option<Error>)
      requires Valid()
      modifies `keys, `slots, `registryGeneration, `retired
      ensures Valid()
      ensures (Contents(), error) == ObserveGeneration(env, old(Contents()), id, generation)
    {
      hide StateOk, Wired, KeysOk, Directory, NewEntity, RetireGeneration;
      ObserveKeepsState(env, Contents(), id, generation);
      if id == 0 || generation == 0 {
        return Some(InvalidArgument);
      }
      WiredEntities();
      if id !in keys {
        if |slots| >= env.options.maxEntities {
          return Some(TooManyItems);
        }
        var _ := AddEntity(id, generation);
        return None;
      }
      var i := keys[id];
      KnownEntity(id);
      if slots[i].current == 0 {
        ReplaceHeader(i, slots[i].(current := generation, bound := generation));
        return None;
      }
      if generation < slots[i].current {
        return Some(EntityGenerationStale);
      }
      if generation > slots[i].current {
        RetireSlot(i, generation);
        registryGeneration := registryGeneration + 1;
      }
      return None;
    }

    lemma WiredEntities()
      requires Wired()
      ensures KeysOk(keys, slots) && Contents().entities.Keys == keys.Keys && |Contents().entities| == |slots|
    {
      KnownEntities();
    }

    /** Marks every capability; `changed` tells whether one of them is not actionable afterwards. */
    method MarkAndWatch(i: nat, mark: Mark) returns (changed: bool)
      requires Wired() && i < |slots|
      modifies `slots, `reverse, `revalidation
      ensures Wired()
      ensures slots == old(slots)[i := MarkAll(old(slots[i]), mark)]
      ensures changed <==>
              exists c :: c in slots[i].capabilities && !ResolutionOf(c, slots[i].capabilities[c]).Actionable()
    {
      hide Wired, KeysOk, MarkEntry, ResolutionOf;
      changed := false;
      ghost var entity := slots[i];
      var rest := slots[i].capabilities.Keys;
      MarkSomeEnds(entity, mark);
      assert slots == slots[i := entity];
      assert entity.capabilities.Keys - rest == {};
      while rest != {}
        invariant Wired() && rest <= entity.capabilities.Keys
        invariant i < |slots| && slots == old(slots)[i := MarkSome(entity, mark, entity.capabilities.Keys - rest)]
        invariant changed <==> exists c :: c in slots[i].capabilities && c !in rest
                                           && !ResolutionOf(c, slots[i].capabilities[c]).Actionable()
      {
        var c :| c in rest;
        MarkSomeStep(entity, mark, entity.capabilities.Keys - rest, c);
        MarkEvidence(i, c, mark);
        assert entity.capabilities.Keys - rest + {c} == entity.capabilities.Keys - (rest - {c});
        rest := rest - {c};
        if !ResolutionOf(c, slots[i].capabilities[c]).Actionable() {
          changed := true;
        }
      }
      assert entity.capabilities.Keys - {} == entity.capabilities.Keys;
    }

    method InvalidateEntity(id: Id, generation: nat, reason: Id) returns (error: Option<Error>)
      requires Valid()
      modifies `slots, `reverse, `revalidation, `registryGeneration
      ensures Valid()
      ensures (Contents(), error) == RegistrySteps.InvalidateEntity(old(Contents()), id, generation, reason)
    {
      hide StateOk, Wired, KeysOk, Directory, MarkAll, Refresh, ResolutionOf;
      InvalidateKeepsState(env, Contents(), id, generation, reason);
      WiredEntities();
      if id !in keys {
        return Some(UnknownEntity);
      }
      var i := keys[id];
      KnownEntity(id);
      if generation == 0 || generation != slots[i].current {
        return Some(UnknownEntityGeneration);
      }
      ghost var entity, start := slots[i], Contents();
      var changed := MarkAndWatch(i, EntityMark(reason));
      MarkAllKeepsHeader(entity, EntityMark(reason));
      assert Contents() == PutEntity(start, id, slots[i]) by {
        ReplacedSlot(keys, old(slots), i, slots[i]);
      }
      assert SeemsChanged(entity, slots[i]) <==> !entity.invalidated || changed;
      if !slots[i].invalidated {
        PutTwice(start, id, slots[i], slots[i].(invalidated := true, reason := reason));
        ReplaceHeader(i, slots[i].(invalidated := true, reason := reason));
        changed := true;
      }
      if changed {
        RefreshKeepsHeader(slots[i], registryGeneration);
        PutTwice(start, id, slots[i], Refresh(slots[i], registryGeneration));
        ReplaceHeader(i, Refresh(slots[i], registryGeneration));
        registryGeneration := registryGeneration + 1;
      }
      return None;
    }

    /** One turn of the loop over the entities. */
    method InvalidateSlot(i: nat, source: Id, mark: Mark) returns (here: nat, changed: bool)
      requires Wired() && i < |slots|
      modifies `slots, `reverse, `revalidation
      ensures Wired()
      ensures slots == old(slots)[i := MarkSource(old(slots[i]), mark, registryGeneration)]
      ensures here == |EntityPlaces(old(slots[i]), source)| && changed == (old(slots[i]).capabilities != map[])
    {
      hide Wired, KeysOk, MarkAll, Refresh, EntityPlaces;
      here := CountEntity(slots[i], source);
      changed := slots[i].capabilities != map[];
      if changed {
        MarkCapabilities(i, mark);
        RefreshKeepsHeader(slots[i], registryGeneration);
        ReplaceHeader(i, Refresh(slots[i], registryGeneration));
      }
    }

    method InvalidateSlots(source: Id, mark: Mark) returns (affected: nat, any: bool)
      requires Wired()
      modifies `slots, `reverse, `revalidation
      ensures Wired() && |slots| == |old(slots)|
      ensures forall k :: 0 <= k < |slots| ==> slots[k] == MarkSource(old(slots)[k], mark, registryGeneration)
      ensures affected == |SlotPlaces(old(slots), |slots|, source)|
      ensures any <==> exists k :: 0 <= k < |slots| && old(slots)[k].capabilities != map[]
    {
      hide Wired, KeysOk, MarkSource, SlotPlaces, EntityPlaces;
      ghost var before := slots;
      any, affected := false, 0;
      WiredKeys();
      AllSlots(keys, before, source);
      for i := 0 to |slots|
        invariant Wired() && |slots| == |before|
        invariant forall k :: 0 <= k < i ==> slots[k] == MarkSource(before[k], mark, registryGeneration)
        invariant forall k :: i <= k < |slots| ==> slots[k] == before[k]
        invariant affected == |SlotPlaces(before, i, source)|
        invariant any <==> exists k :: 0 <= k < i && before[k].capabilities != map[]
      {
        OneMoreSlot(keys, before, i, source);
        var here, changed := InvalidateSlot(i, source, mark);
        affected := affected + here;
        any := any || changed;
      }
    }

    /** InvalidateSource, with the number of records that were current until now. */
    method InvalidateSource(source: Id, reason: Id) returns (error: Option<Error>, affected: nat)
      requires Valid()
      modifies `slots, `reverse, `revalidation, `registryGeneration
      ensures Valid()
      ensures (Contents(), error) == RegistrySteps.InvalidateSource(old(Contents()), source, reason)
      ensures affected == if error.Some? then 0 else |SourcePlaces(old(Contents()).entities, source)|
    {
      hide StateOk, Wired, KeysOk, Directory, MarkSource, MarkSourceEverywhere, AnyCapabilities, SlotPlaces,
        SourcePlaces;
      InvalidateSourceKeepsState(env, Contents(), source, reason);
      if source == 0 {
        return Some(InvalidArgument), 0;
      }
      ghost var before := slots;
      var any: bool;
      WiredKeys();
      AllSlots(keys, before, source);
      affected, any := InvalidateSlots(source, SourceMark(source, reason));
      WiredKeys();
      SourceMarked(keys, before, slots, SourceMark(source, reason), registryGeneration);
      if any {
        registryGeneration := registryGeneration + 1;
      }
      error := None;
    }

    // ----- queries -----

    /** The identifiers behind a list of entity keys, in ascending order. */
    method EntitiesFromKeys(listed: seq<nat>) returns (ids: seq<Id>)
      ensures StrictlySorted(ids)
      ensures forall id :: id in ids <==> exists i :: i in listed && i < |slots| && slots[i].id == id
    {
      var found: set<Id> := {};
      for k := 0 to |listed|
        invariant forall id :: id in found <==> exists i :: i in listed[..k] && i < |slots| && slots[i].id == id
      {
        assert listed[..k + 1] == listed[..k] + [listed[k]];
        if listed[k] < |slots| {
          found := found + {slots[listed[k]].id};
        }
      }
      assert listed[..|listed|] == listed;
      AscendingSorted(found);
      ids := Ascending(found);
    }

    /** EntitiesSupporting and its siblings: no entity is missed, and until a generation is
        retired none is listed wrongly. */
    method EntitiesResolved(c: Id, s: CapabilityState) returns (ids: seq<Id>)
      requires Valid()
      ensures StrictlySorted(ids)
      ensures forall id :: id in keys && Resolved(slots, keys[id], c, s) ==> id in ids
      ensures !retired ==> forall id :: id in ids ==> id in keys && Resolved(slots, keys[id], c, s)
    {
      hide StateOk;
      ids := EntitiesFromKeys(Bucket(reverse, c, s));
    }

    method CapabilitiesRequiringRevalidation() returns (pairs: set<(Id, Id)>)
      requires Valid()
      ensures forall id: Id, c: Id :: id in keys && Waits(slots, keys[id], c) ==> (id, c) in pairs
      ensures !retired ==> forall p :: p in pairs ==> p.0 in keys && Waits(slots, keys[p.0], p.1)
    {
      hide StateOk;
      pairs := revalidation;
    }

    method CheckSnapshot(snapshot: Snapshot) returns (current: bool)
      requires Valid()
      ensures current <==> SnapshotIsCurrent(Contents(), snapshot)
    {
      hide StateOk;
      KnownEntities();
      current := snapshot.registryGeneration == registryGeneration && snapshot.epoch == epoch;
      for k := 0 to |snapshot.entries|
        invariant current <==>
            && snapshot.registryGeneration == registryGeneration && snapshot.epoch == epoch
            && forall entry :: entry in snapshot.entries[..k] ==>
                 entry.entity in Contents().entities && EntryFor(Contents(), entry.entity) == entry
      {
        var entry := snapshot.entries[k];
        assert snapshot.entries[..k + 1] == snapshot.entries[..k] + [entry];
        if entry.entity !in keys {
          current := false;
          continue;
        }
        var entity := slots[keys[entry.entity]];
        if entity.current != entry.generation || entity.setGeneration != entry.setGeneration
           || DigestOf(entity.published) != entry.digest
        {
          current := false;
        }
      }
      assert snapshot.entries[..|snapshot.entries|] == snapshot.entries;
    }

    // ----- save and load -----

    ghost predicate StoresAt(id: Id, stored: StoredEntity)
      requires KeysOk(keys, slots)
      reads this
    {
      id in Contents().entities && stored.id == id && Stores(Contents().entities[id], stored)
    }

    ghost predicate StoresEach(ids: seq<Id>, stored: seq<StoredEntity>)
      requires KeysOk(keys, slots)
      reads this
    {
      |stored| == |ids| && forall i :: 0 <= i < |ids| ==> StoresAt(ids[i], stored[i])
    }

    lemma EmptyStore()
      requires KeysOk(keys, slots)
      ensures StoresEach([], [])
    {
    }

    lemma StoresOneMore(ids: seq<Id>, k: nat, stored: seq<StoredEntity>, se: StoredEntity)
      requires KeysOk(keys, slots) && k < |ids| && StoresEach(ids[..k], stored) && StoresAt(ids[k], se)
      ensures StoresEach(ids[..k + 1], stored + [se])
    {
      hide KeysOk, Directory, StoresAt;
      forall i | 0 <= i < k + 1 ensures StoresAt(ids[..k + 1][i], (stored + [se])[i]) {
        if i < k {
          assert StoresAt(ids[..k][i], stored[i]);
        }
      }
    }

    method SaveSlot(id: Id) returns (stored: StoredEntity)
      requires Valid() && id in keys
      ensures StoresAt(id, stored)
    {
      hide StateOk, Wired, KeysOk, Directory, Stores, EntityOk;
      KnownEntity(id);
      SlotEntriesOk(id);
      stored := StoreEntity(ContextOf(env, Contents()), slots[keys[id]]);
    }

    method SaveEntities() returns (stored: seq<StoredEntity>)
      requires Valid()
      ensures SavesEntities(Contents().entities, stored)
    {
      var ids := Ascending(keys.Keys);
      AscendingSorted(keys.Keys);
      stored := [];
      hide StateOk, Wired, KeysOk, Directory, StoresAt, StoresEach;
      EmptyStore();
      WiredEntities();
      for k := 0 to |ids|
        invariant |stored| == k
        invariant StoresEach(ids[..k], stored)
      {
        assert ids[k] in ids;
        var se := SaveSlot(ids[k]);
        StoresOneMore(ids, k, stored, se);
        stored := stored + [se];
      }
      assert ids[..|ids|] == ids;
      ListsEveryEntity(ids, stored);
    }

    lemma SlotEntriesOk(id: Id)
      requires Valid() && id in Contents().entities
      ensures EntriesOk(ContextOf(env, Contents()), Contents().entities[id])
    {
      hide Wired, KeysOk, Directory;
      assert EntityOk(ContextOf(env, Contents()), id, Contents().entities[id]);
    }

    lemma ListsEveryEntity(ids: seq<Id>, stored: seq<StoredEntity>)
      requires KeysOk(keys, slots)
      requires forall i, j :: 0 <= i < j < |ids| ==> ids[i] < ids[j]
      requires forall id :: id in ids <==> id in Contents().entities
      requires StoresEach(ids, stored)
      ensures SavesEntities(Contents().entities, stored)
    {
      hide KeysOk, Directory, Stores;
      var entities := Contents().entities;
      forall e | e in entities ensures exists se :: se in stored && se.id == e {
        assert e in ids;
        var i :| 0 <= i < |ids| && ids[i] == e;
        assert StoresAt(ids[i], stored[i]) && stored[i] in stored;
      }
      forall i, j | 0 <= i < j < |stored| ensures stored[i].id != stored[j].id {
        assert StoresAt(ids[i], stored[i]) && StoresAt(ids[j], stored[j]);
      }
      forall se | se in stored ensures se.id in entities && Stores(entities[se.id], se) {
        var i :| 0 <= i < |stored| && stored[i] == se;
        assert StoresAt(ids[i], stored[i]);
      }
    }

    /** Save is never refused: every valid registry has a payload that stores it. */
    method Save() returns (payload: Payload)
      requires Valid()
      ensures Saves(Contents(), payload)
    {
      hide EntitiesOk, Wired, KeysOk, Directory, SavesEntities, ReplaysOk;
      var grants := StoreGrants(authorities);
      var registrations := StoreRegistrations(publishers);
      var stored := SaveEntities();
      payload := Payload(epoch, registryGeneration, grants, fences, registrations, stored);
    }

    /** Adds an entity nothing of which is filed in the index yet. */
    method AddUnresolved(entity: Entity) returns (i: nat)
      requires Wired() && entity.id !in keys && AllUnresolved(entity.capabilities)
      modifies `keys, `slots
      ensures Wired() && i < |slots| && slots == old(slots) + [entity] && i == old(|slots|)
      ensures keys == old(keys)[entity.id := i]
      ensures Contents() == PutEntity(old(Contents()), entity.id, entity)
    {
      AddedSlot(keys, slots, entity);
      NewSlotKeepsIndex(reverse, revalidation, slots, entity);
      i := |slots|;
      keys := keys[entity.id := i];
      slots := slots + [entity];
    }

    method ResolveSlot(i: nat)
      requires Wired() && i < |slots|
      modifies `slots, `reverse, `revalidation
      ensures Wired()
      ensures slots == old(slots)[i := old(slots[i]).(capabilities := ResolveAll(old(slots[i]).capabilities))]
    {
      hide Wired, KeysOk, ResolveSome, ResolveAll;
      ghost var entity := slots[i];
      var rest := slots[i].capabilities.Keys;
      ResolveSomeEnds(entity);
      assert slots == slots[i := entity];
      assert entity.capabilities.Keys - rest == {};
      while rest != {}
        invariant Wired() && rest <= entity.capabilities.Keys
        invariant i < |slots| && slots == old(slots)[i := ResolveSome(entity, entity.capabilities.Keys - rest)]
      {
        var c :| c in rest;
        ResolveSomeStep(entity, entity.capabilities.Keys - rest, c);
        var entry := slots[i].capabilities[c];
        var resolution := ComputeResolution(c, entry.generation, entry.evidence);
        FinishResolution(i, c, entry.(resolution := Some(resolution)));
        assert entity.capabilities.Keys - rest + {c} == entity.capabilities.Keys - (rest - {c});
        rest := rest - {c};
      }
      assert entity.capabilities.Keys - {} == entity.capabilities.Keys;
    }

    method LoadSlot(stored: StoredEntity)
      requires Wired() && stored.id !in keys
      modifies `keys, `slots, `reverse, `revalidation
      ensures Wired() && keys.Keys == old(keys).Keys + {stored.id}
      ensures Contents() == PutEntity(old(Contents()), stored.id, LoadEntity(stored, registryGeneration))
    {
      hide Wired, KeysOk, Directory, LoadEntity, ResolveAll, LoadClaims, LoadCapabilities, LoadFloors, Refresh;
      var bound := if stored.bound != 0 then stored.bound else stored.current;
      var listed := ReadCapabilities(stored.capabilities);
      var capabilities := ReadClaims(listed, stored.claims, stored.id, bound);
      var floors := ReadFloors(stored.floors);
      var read := Entity(stored.id, stored.current, bound, stored.hasSet, stored.setGeneration, stored.invalidated,
        stored.reason, capabilities, floors, None);
      ReadThenResolved(stored, registryGeneration);
      ghost var start := Contents();
      var i := AddUnresolved(read);
      assert slots[i] == read;
      ghost var before := slots;
      ResolveSlot(i);
      ReplacedSlot(keys, before, i, slots[i]);
      PutTwice(start, stored.id, read, slots[i]);
      var refreshed := Refresh(slots[i], registryGeneration);
      RefreshKeepsHeader(slots[i], registryGeneration);
      PutTwice(start, stored.id, slots[i], refreshed);
      ReplaceHeader(i, refreshed);
    }

    method LoadSlots(stored: seq<StoredEntity>)
      requires Wired() && !retired && keys == map[] && DistinctIds(stored)
      modifies `keys, `slots, `reverse, `revalidation
      ensures Wired()
      ensures Contents() == old(Contents()).(entities := LoadEntities(stored, registryGeneration))
    {
      hide Wired, KeysOk, Directory, LoadEntities, LoadEntity, DistinctIds;
      NothingLoaded(registryGeneration);
      assert stored[..0] == [];
      for k := 0 to |stored|
        invariant Wired()
        invariant forall id :: id in keys <==> exists i :: 0 <= i < k && stored[i].id == id
        invariant Contents() == old(Contents()).(entities := LoadEntities(stored[..k], registryGeneration))
      {
        NotLoadedYet(stored, k);
        LoadOneMore(stored, k, registryGeneration);
        LoadSlot(stored[k]);
      }
      assert stored[..|stored|] == stored;
    }

    /** Load replaces everything, the index included, so the index is exact again. */
    method Load(payload: Payload, ghost saved: State)
      requires env.Valid() && StateOk(env, saved) && Saves(saved, payload)
      modifies this
      ensures Valid() && !retired
      ensures Contents() == RegistrySteps.Load(payload)
    {
      hide StateOk, Saves, LoadEntities, LoadGrants, LoadRegistrations, Filter, Wired, KeysOk, Directory, DistinctIds;
      LoadKeepsState(env, saved, payload);
      SavedIds(env, saved, payload);
      keys, slots, reverse, revalidation, retired := map[], [], map[], {}, false;
      epoch := if payload.epoch == 0 then 1 else payload.epoch;
      registryGeneration := payload.registryGeneration;
      authorities := ReadGrants(payload.authorities);
      fences, fencedBoots := ReadFences(payload.fences);
      publishers := ReadRegistrations(payload.registrations, fencedBoots, epoch);
      EmptyIndex();
      LoadSlots(payload.entities);
    }

    lemma EmptyIndex()
      requires keys == map[] && slots == [] && reverse == map[] && revalidation == {}
      ensures Wired()
    {
    }

    lemma NothingLoaded(registryGeneration: nat)
      requires Wired() && keys == map[]
      ensures LoadEntities([], registryGeneration) == map[] && Contents().entities == map[]
    {
    }

    constructor (env: Environment, epoch: nat)
      requires env.Valid()
      ensures Valid() && !retired && this.env == env
      ensures Contents() == Initial(epoch)
    {
      this.env := env;
      this.epoch := if epoch == 0 then 1 else epoch;
      registryGeneration, authorities, publishers, fencedBoots, fences := 0, map[], map[], {}, [];
      keys, slots, reverse, revalidation, retired := map[], [], map[], {}, false;
    }
  }
}
