/** Where the records of a registry come from: a mutation only re-marks or drops
    records it finds, and a publication adds none but its own author's claims. */
module Authorship {
  import opened Sequences
  import opened Evidence
  import opened RegistryState
  import opened RegistrySteps

  /** The same observation, except that it may have stopped being current. */
  ghost predicate SameObservation(a: Record, b: Record) {
    && b == a.(currentness := b.currentness, claim := a.claim.(reason := b.claim.reason))
    && (IsCurrent(b) ==> IsCurrent(a))
  }

  /** An author and the claims it makes. */
  datatype Origin = Origin(author: Author, claims: set<Claim>)

  /** The claim of a record, whose reason may have been replaced. */
  ghost predicate Makes(claims: set<Claim>, claim: Claim) {
    exists made :: made in claims && claim == made.(reason := claim.reason)
  }

  /** The record is the author's, for one of the claims. */
  ghost predicate Authored(r: Record, origin: Origin) {
    && r.key == origin.author.key && r.publisher == origin.author.publisher && r.scope == origin.author.scope
    && r.epoch == origin.author.epoch && r.sourceGeneration == origin.author.sourceGeneration
    && r.attempt == origin.author.attempt && r.publication == origin.author.publication
    && Makes(origin.claims, r.claim)
  }

  ghost predicate Inherits(before: seq<Record>, r: Record) {
    exists x :: x in before && SameObservation(x, r)
  }

  /** Every record of `after` was there before or is the author's. */
  ghost predicate ListFrom(before: seq<Record>, after: seq<Record>, origin: Origin) {
    forall r :: r in after ==> Inherits(before, r) || Authored(r, origin)
  }

  ghost predicate EntityFrom(before: Entity, after: Entity, origin: Origin) {
    forall c :: c in after.capabilities ==>
      ListFrom(EntryOf(before, c).evidence, after.capabilities[c].evidence, origin)
  }

  lemma EntityFromComposes(a: Entity, b: Entity, c: Entity, origin: Origin)
    requires EntityFrom(a, b, origin) && EntityFrom(b, c, origin)
    ensures EntityFrom(a, c, origin)
  {
  }

  lemma ListFromSelf(evidence: seq<Record>, origin: Origin)
    ensures ListFrom(evidence, evidence, origin)
  {
  }

  lemma MarkedFrom(evidence: seq<Record>, mark: Mark, origin: Origin)
    requires !mark.to.Current?
    ensures ListFrom(evidence, MarkRecords(evidence, mark), origin)
  {
    hide Selects;
    var marked := MarkRecords(evidence, mark);
    forall r | r in marked ensures Inherits(evidence, r) {
      var i :| 0 <= i < |marked| && marked[i] == r;
      assert SameObservation(evidence[i], r);
    }
  }

  lemma {:induction false} TrimmedFrom(evidence: seq<Record>, limit: nat)
    ensures forall r :: r in Trim(evidence, limit) ==> r in evidence
    decreases |evidence|
  {
    var v := OldestRetired(evidence);
    if |evidence| > limit && v < |evidence| {
      TrimmedFrom(Without(evidence, v), limit);
    }
  }

  lemma DisplacedFrom(evidence: seq<Record>, key: SourceKey, reason: Id, limit: nat, origin: Origin)
    ensures ListFrom(evidence, Displaced(evidence, key, reason, limit), origin)
  {
    hide Trim, MarkRecords, Authored;
    var marked := MarkRecords(evidence, Mark(LiveOf(key), Superseded, reason));
    MarkedFrom(evidence, Mark(LiveOf(key), Superseded, reason), origin);
    TrimmedFrom(marked, limit);
  }

  lemma ClaimedFrom(limit: nat, origin: Origin, entity: Entity, entry: Entry, claim: Claim, reason: Id)
    requires claim in origin.claims
    ensures ListFrom(entry.evidence, ClaimedEntry(limit, origin.author, entity, entry, claim, reason).evidence, origin)
  {
    hide Displaced, Resolve, HighestGeneration, Inherits;
    DisplacedFrom(entry.evidence, origin.author.key, reason, limit, origin);
    var kept := Displaced(entry.evidence, origin.author.key, reason, limit);
    var record := RecordFor(origin.author, entity, entry, claim);
    assert forall r :: r in kept + [record] <==> r in kept || r == record;
  }

  lemma PutEntryFrom(entity: Entity, c: Id, entry: Entry, origin: Origin)
    requires ListFrom(EntryOf(entity, c).evidence, entry.evidence, origin)
    ensures EntityFrom(entity, PutEntry(entity, c, entry), origin)
  {
  }

  lemma EntityFromSelf(entity: Entity, origin: Origin)
    ensures EntityFrom(entity, entity, origin)
  {
  }

  lemma MarkAllFrom(entity: Entity, mark: Mark, origin: Origin)
    requires !mark.to.Current?
    ensures EntityFrom(entity, MarkAll(entity, mark), origin)
  {
    hide ListFrom, MarkRecords, Resolve;
    forall k | k in entity.capabilities
      ensures ListFrom(EntryOf(entity, k).evidence, MarkAll(entity, mark).capabilities[k].evidence, origin)
    {
      ListFromSelf(EntryOf(entity, k).evidence, origin);
      MarkedFrom(EntryOf(entity, k).evidence, mark, origin);
    }
  }

  lemma ApplyClaimFrom(options: Options, origin: Origin, entity: Entity, claim: Claim, reason: Id)
    requires claim in origin.claims
    ensures EntityFrom(entity, ApplyClaim(options, origin.author, entity, claim, reason).entity, origin)
  {
    hide ListFrom, Displaced, ClaimedEntry, EntityFrom, Crowded, PutEntry;
    var c, limit := claim.capability, options.maxEvidence;
    var entry := EntryOf(entity, c);
    EntityFromSelf(entity, origin);
    DisplacedFrom(entry.evidence, origin.author.key, reason, limit, origin);
    ClaimedFrom(limit, origin, entity, entry, claim, reason);
    PutEntryFrom(entity, c, entry.(evidence := Displaced(entry.evidence, origin.author.key, reason, limit)), origin);
    PutEntryFrom(entity, c, ClaimedEntry(limit, origin.author, entity, entry, claim, reason), origin);
  }

  lemma {:induction false} ApplyClaimsFrom(options: Options, origin: Origin, entity: Entity, claims: seq<Claim>,
                                           reason: Id)
    requires forall claim :: claim in claims ==> claim in origin.claims
    ensures EntityFrom(entity, ApplyClaims(options, origin.author, entity, claims, reason).entity, origin)
    decreases |claims|
  {
    hide ApplyClaim, EntityFrom;
    if claims == [] {
      EntityFromSelf(entity, origin);
    } else {
      var first := ApplyClaim(options, origin.author, entity, claims[0], reason);
      ApplyClaimFrom(options, origin, entity, claims[0], reason);
      if first.error == None {
        ApplyClaimsFrom(options, origin, first.entity, claims[1..], reason);
        EntityFromComposes(entity, first.entity, ApplyClaims(options, origin.author, entity, claims, reason).entity,
                           origin);
      }
    }
  }

  /** An edit that makes a claim. */
  predicate Claims(edit: Edit) { !edit.operation.WithdrawClaim? && !edit.operation.SupersedeSourceEvidence? }

  lemma ApplyEditFrom(options: Options, origin: Origin, entity: Entity, edit: Edit, reason: Id, superseded: bool)
    requires Claims(edit) ==> EditClaim(edit) in origin.claims
    ensures EntityFrom(entity, ApplyEdit(options, origin.author, entity, edit, reason, superseded).entity, origin)
  {
    hide ApplyClaim, EntityFrom, MarkAll, ListFrom, MarkRecords, Resolve;
    EntityFromSelf(entity, origin);
    match edit.operation
    case WithdrawClaim =>
      if edit.capability in entity.capabilities {
        var entry := entity.capabilities[edit.capability];
        var mark := Mark(LiveOf(origin.author.key), Superseded, reason);
        ListFromSelf(entry.evidence, origin);
        MarkedFrom(entry.evidence, mark, origin);
        PutEntryFrom(entity, edit.capability, MarkEntry(edit.capability, entry, mark), origin);
      }
    case SupersedeSourceEvidence => MarkAllFrom(entity, Mark(LiveOf(origin.author.key), Superseded, reason), origin);
    case _ => ApplyClaimFrom(options, origin, entity, EditClaim(edit), reason);
  }

  lemma {:induction false} ApplyEditsFrom(options: Options, origin: Origin, entity: Entity, edits: seq<Edit>,
                                          reason: Id,
                                         superseded: bool)
    requires forall edit :: edit in edits && Claims(edit) ==> EditClaim(edit) in origin.claims
    ensures EntityFrom(entity, ApplyEdits(options, origin.author, entity, edits, reason, superseded).entity, origin)
    decreases |edits|
  {
    hide ApplyEdit, EntityFrom;
    if edits == [] {
      EntityFromSelf(entity, origin);
    } else {
      var first := ApplyEdit(options, origin.author, entity, edits[0], reason, superseded);
      ApplyEditFrom(options, origin, entity, edits[0], reason, superseded);
      if first.error == None {
        var next := superseded || edits[0].operation.SupersedeSourceEvidence?;
        ApplyEditsFrom(options, origin, first.entity, edits[1..], reason, next);
        EntityFromComposes(entity, first.entity,
                           ApplyEdits(options, origin.author, entity, edits, reason, superseded).entity, origin);
      }
    }
  }

  lemma ClearFrom(entity: Entity, grant: Grant, request: Request, origin: Origin)
    ensures EntityFrom(entity, ClearForSnapshot(entity, grant, request), origin)
  {
    hide EntityFrom, MarkAll;
    var others := Mark(LiveProcessBoundOfOthers(request.Instance()), Superseded, request.reason);
    var own := Mark(LiveOf(request.Key()), Superseded, request.reason);
    EntityFromSelf(entity, origin);
    MarkAllFrom(entity, others, origin);
    var first := if grant.exclusive then MarkAll(entity, others) else entity;
    MarkAllFrom(first, own, origin);
    EntityFromComposes(entity, first, MarkAll(first, own), origin);
  }

  /** The claims of a publication: those it lists, those of its edits, and the absences it reports. */
  ghost function Proposed(env: Environment, grant: Grant, request: Request): set<Claim> {
    (set claim | claim in Covered(request.claims, request.coverage))
    + (set claim | claim in AbsenceClaims(env, grant, request))
    + (set edit | edit in request.edits && Claims(edit) :: EditClaim(edit))
  }

  ghost function OriginIn(env: Environment, grant: Grant, epoch: nat, request: Request): Origin {
    Origin(AuthorOf(epoch, request), Proposed(env, grant, request))
  }

  /** Step 10 of a publication adds records of its own author and claims only. */
  lemma ApplyRequestFrom(env: Environment, epoch: nat, grant: Grant, entity: Entity, request: Request)
    ensures EntityFrom(entity, ApplyRequest(env, epoch, grant, entity, request).entity,
                       OriginIn(env, grant, epoch, request))
  {
    hide EntityFrom, ApplyClaims, ApplyEdits, ClearForSnapshot;
    var origin := OriginIn(env, grant, epoch, request);
    match request.mode
    case FullSnapshot =>
      var cleared := ClearForSnapshot(entity, grant, request);
      var claims := Covered(request.claims, request.coverage);
      ClearFrom(entity, grant, request, origin);
      ApplyClaimsFrom(env.options, origin, cleared, claims, request.reason);
      var first := ApplyClaims(env.options, origin.author, cleared, claims, request.reason);
      EntityFromComposes(entity, cleared, first.entity, origin);
      var absences := AbsenceClaims(env, grant, request);
      ApplyClaimsFrom(env.options, origin, first.entity, absences, request.reason);
      EntityFromComposes(entity, first.entity,
                         ApplyClaims(env.options, origin.author, first.entity, absences, request.reason).entity,
                         origin);
    case PartialObservation =>
      ApplyClaimsFrom(env.options, origin, entity, Covered(request.claims, request.coverage), request.reason);
    case Incremental => ApplyEditsFrom(env.options, origin, entity, request.edits, request.reason, false);
  }

  // ----- whole registries -----

  /** Every record held for entity e and capability c. */
  ghost function Held(entities: map<Id, Entity>, e: Id, c: Id): seq<Record> {
    if e in entities && c in entities[e].capabilities then entities[e].capabilities[c].evidence else []
  }

  /** Every record of `after` was held before or is the author's. */
  ghost predicate EntitiesFrom(before: map<Id, Entity>, after: map<Id, Entity>, origin: Origin) {
    forall e, c :: ListFrom(Held(before, e, c), Held(after, e, c), origin)
  }

  lemma PutFrom(entities: map<Id, Entity>, e: Id, start: Entity, entity: Entity, origin: Origin)
    requires EntityFrom(start, entity, origin)
    requires forall c :: EntryOf(start, c).evidence == Held(entities, e, c) || EntryOf(start, c).evidence == []
    ensures EntitiesFrom(entities, entities[e := entity], origin)
  {
  }

  lemma EmptyFrom(before: seq<Record>, origin: Origin)
    ensures ListFrom(before, [], origin)
  {
  }

  lemma EntitiesFromSelf(entities: map<Id, Entity>, origin: Origin)
    ensures EntitiesFrom(entities, entities, origin)
  {
  }

  lemma EntitiesFromComposes(a: map<Id, Entity>, b: map<Id, Entity>, c: map<Id, Entity>, origin: Origin)
    requires EntitiesFrom(a, b, origin) && EntitiesFrom(b, c, origin)
    ensures EntitiesFrom(a, c, origin)
  {
  }

  lemma LocateFrom(env: Environment, st: State, request: Request, origin: Origin)
    ensures EntitiesFrom(st.entities, Locate(env, st, request).0.entities, origin)
  {
    hide EntitiesFrom, EntityFrom;
    EntitiesFromSelf(st.entities, origin);
    var created := NewEntity(request.entity, request.entityGeneration);
    EntityFromSelf(created, origin);
    PutFrom(st.entities, request.entity, created, created, origin);
    if request.entity in st.entities {
      var retired := RetireGeneration(st.entities[request.entity], request.entityGeneration);
      EntityFromSelf(retired, origin);
      PutFrom(st.entities, request.entity, retired, retired, origin);
    }
  }

  lemma CommittedCapabilities(env: Environment, st: State, before: Entity, after: Entity, request: Request)
    requires request.Instance() in st.publishers && request.scope in st.authorities
    ensures var committed := Commit(env, st, before, after, request).0.entities;
            && request.entity in committed && committed == st.entities[request.entity := committed[request.entity]]
            && committed[request.entity].capabilities == after.capabilities
  {
  }

  lemma PublishLocatedFrom(env: Environment, st: State, request: Request)
    requires request.entity in st.entities && request.Instance() in st.publishers && request.scope in st.authorities
    ensures EntitiesFrom(st.entities, PublishLocated(env, st, request).0.entities,
                         OriginIn(env, st.authorities[request.scope], st.epoch, request))
  {
    hide EntitiesFrom, ApplyRequest, Commit, ClassifyReplay, CheckGenerations, ContentOf, ListFrom, OriginIn;
    var grant := st.authorities[request.scope];
    var origin := OriginIn(env, grant, st.epoch, request);
    var entity := st.entities[request.entity];
    var applied := ApplyRequest(env, st.epoch, grant, entity, request);
    EntitiesFromSelf(st.entities, origin);
    ApplyRequestFrom(env, st.epoch, grant, entity, request);
    PutFrom(st.entities, request.entity, entity, applied.entity, origin);
    CommittedCapabilities(env, st, entity, applied.entity, request);
    var committed := Commit(env, st, entity, applied.entity, request).0.entities[request.entity];
    PutFrom(st.entities, request.entity, entity, committed, origin);
  }

  /** Who publishes what: nobody anything, when the scope has no grant. */
  ghost function OriginOf(env: Environment, st: State, request: Request): Origin {
    if request.scope in st.authorities then OriginIn(env, st.authorities[request.scope], st.epoch, request)
    else Origin(AuthorOf(st.epoch, request), {})
  }

  /** A publication adds records of its own author only, each for a claim it proposes. */
  lemma PublishAddsOwnRecords(env: Environment, st: State, request: Request)
    ensures EntitiesFrom(st.entities, Publish(env, st, request).0.entities, OriginOf(env, st, request))
  {
    hide EntitiesFrom, Admit, Locate, PublishLocated, OriginIn;
    var origin := OriginOf(env, st, request);
    EntitiesFromSelf(st.entities, origin);
    if Admit(env, st, request) == None {
      var (located, error) := Locate(env, st, request);
      LocateFrom(env, st, request, origin);
      if error == None {
        assert located.epoch == st.epoch by {
          LocateKeepsEpoch(env, st, request);
        }
        PublishLocatedFrom(env, located, request);
        EntitiesFromComposes(st.entities, located.entities, PublishLocated(env, located, request).0.entities, origin);
      }
    }
  }

  lemma LocateKeepsEpoch(env: Environment, st: State, request: Request)
    ensures Locate(env, st, request).0.epoch == st.epoch
  {
  }

  // ----- mutations that add nothing -----

  /** Every record of `after` was held before. */
  ghost predicate NothingAdded(before: map<Id, Entity>, after: map<Id, Entity>) {
    forall e, c, r :: r in Held(after, e, c) ==> Inherits(Held(before, e, c), r)
  }

  /** An author of nothing. */
  ghost function Nobody(): Origin { Origin(Author(SourceKey(0, 0), 0, 0, 0, 0, 0, 0), {}) }

  lemma NothingAddedFrom(before: map<Id, Entity>, after: map<Id, Entity>)
    requires EntitiesFrom(before, after, Nobody())
    ensures NothingAdded(before, after)
  {
    hide Inherits;
    forall e, c, r | r in Held(after, e, c) ensures Inherits(Held(before, e, c), r) {
      assert ListFrom(Held(before, e, c), Held(after, e, c), Nobody());
    }
  }

  lemma MarkingAddsNothing(before: map<Id, Entity>, after: map<Id, Entity>, mark: Mark)
    requires !mark.to.Current?
    requires forall e :: e in after ==> e in before
    requires forall e :: e in after ==> after[e].capabilities == before[e].capabilities
                                        || after[e].capabilities == MarkAll(before[e], mark).capabilities
                                        || after[e].capabilities == map[]
    ensures NothingAdded(before, after)
  {
    hide ListFrom, MarkAll;
    var origin := Nobody();
    forall e, c ensures ListFrom(Held(before, e, c), Held(after, e, c), origin) {
      EmptyFrom(Held(before, e, c), origin);
      ListFromSelf(Held(before, e, c), origin);
      if e in after && c in after[e].capabilities {
        MarkAllFrom(before[e], mark, origin);
        EmptyComposesEntry(before[e], mark, c, origin);
      }
    }
    NothingAddedFrom(before, after);
  }

  lemma EmptyComposesEntry(entity: Entity, mark: Mark, c: Id, origin: Origin)
    requires EntityFrom(entity, MarkAll(entity, mark), origin)
    ensures c in MarkAll(entity, mark).capabilities ==>
              c in entity.capabilities
              && ListFrom(entity.capabilities[c].evidence, MarkAll(entity, mark).capabilities[c].evidence, origin)
  {
  }

  lemma SameEntitiesAddNothing(entities: map<Id, Entity>)
    ensures NothingAdded(entities, entities)
  {
  }

  lemma FenceAddsNothing(env: Environment, st: State, boot: Id, owner: Id, reason: Id)
    ensures NothingAdded(st.entities, FenceWorkerBoot(env, st, boot, owner, reason).0.entities)
  {
    hide MarkAll, Materialize, NothingAdded;
    SameEntitiesAddNothing(st.entities);
    MarkingAddsNothing(st.entities, MarkEverywhere(st.entities, BootMark(boot, reason), st.registryGeneration),
                       BootMark(boot, reason));
  }

  lemma AdvanceAddsNothing(env: Environment, st: State, boots: seq<Id>, reason: Id)
    ensures NothingAdded(st.entities, AdvanceEpoch(env, st, boots, reason).entities)
  {
    hide MarkAll, Materialize, NothingAdded;
    MarkingAddsNothing(st.entities, MarkEverywhere(st.entities, EpochMark(reason), st.registryGeneration),
                       EpochMark(reason));
  }

  lemma ObserveAddsNothing(env: Environment, st: State, id: Id, generation: nat)
    ensures NothingAdded(st.entities, ObserveGeneration(env, st, id, generation).0.entities)
  {
    SameEntitiesAddNothing(st.entities);
    hide NothingAdded, MarkAll;
    var after := ObserveGeneration(env, st, id, generation).0;
    if after.entities != st.entities {
      EmptyEntityAddsNothing(st.entities, id, after.entities[id]);
    }
  }

  lemma EmptyEntityAddsNothing(entities: map<Id, Entity>, id: Id, entity: Entity)
    requires entity.capabilities == map[] || (id in entities && entity.capabilities == entities[id].capabilities)
    ensures NothingAdded(entities, entities[id := entity])
  {
  }

  lemma InvalidateAddsNothing(st: State, id: Id, generation: nat, reason: Id)
    ensures NothingAdded(st.entities, InvalidateEntity(st, id, generation, reason).0.entities)
  {
    SameEntitiesAddNothing(st.entities);
    hide NothingAdded, MarkAll, Materialize, SeemsChanged;
    var after := InvalidateEntity(st, id, generation, reason).0;
    if after.entities != st.entities {
      MarkingAddsNothing(st.entities, after.entities, EntityMark(reason));
    }
  }

  lemma InvalidateSourceAddsNothing(st: State, source: Id, reason: Id)
    ensures NothingAdded(st.entities, InvalidateSource(st, source, reason).0.entities)
  {
    SameEntitiesAddNothing(st.entities);
    hide NothingAdded, MarkAll, Materialize, AnyCapabilities;
    MarkingAddsNothing(st.entities,
                       MarkSourceEverywhere(st.entities, SourceMark(source, reason), st.registryGeneration),
                       SourceMark(source, reason));
  }

  lemma DirectAddsNothing(env: Environment, st: State, step: Step)
    requires !step.Submit? && !step.Restart?
    ensures NothingAdded(st.entities, Perform(env, st, step).entities)
  {
    hide NothingAdded, FenceWorkerBoot, AdvanceEpoch, ObserveGeneration, InvalidateEntity, InvalidateSource;
    SameEntitiesAddNothing(st.entities);
    match step
    case FenceBoot(boot, owner, reason) => FenceAddsNothing(env, st, boot, owner, reason);
    case Advance(boots, reason) => AdvanceAddsNothing(env, st, boots, reason);
    case Observe(entity, generation) => ObserveAddsNothing(env, st, entity, generation);
    case Invalidate(entity, generation, reason) => InvalidateAddsNothing(st, entity, generation, reason);
    case InvalidateSourceEvidence(source, reason) => InvalidateSourceAddsNothing(st, source, reason);
    case _ =>
  }
}
