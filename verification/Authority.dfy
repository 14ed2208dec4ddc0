/** What a publication may say: which requests are admitted, in the words of the grant its scope holds,
    and that in every run every record stays inside a grant declared for its scope. */
module Authority {
  import opened Sequences
  import opened Values
  import opened Evidence
  import opened RegistryState
  import opened EvidenceInvariant
  import opened RegistrySteps
  import opened RegistryInvariant
  import opened Recovery
  import opened Runs
  import opened Authorship

  // ----- what a grant allows -----

  /** The classes of evidence a source can support; a larger rank is weaker. */
  predicate Supports(source: SourceClass, provenance: nat) {
    match source
    case HardwareEnumeration => true
    case OperatingSystemApi => provenance >= 1
    case DriverApi => provenance >= 1
    case DeviceAgent => provenance >= 1
    case SwitchAgent => provenance >= 1
    case AdministrativeDeclaration => provenance >= 2
    case FirmwareManifest => provenance >= 3
    case VendorSdk => provenance >= 3
    case ImportedManifest => provenance >= 4
    case SyntheticBackend => provenance >= 6
  }

  /** The claim is no stronger than its scope and its source, and durable only if the scope may declare
      so and no process observed it. */
  predicate StaysWithin(grant: Grant, claim: Claim) {
    && claim.provenance >= grant.strongest
    && Supports(claim.sourceClass, claim.provenance)
    && (claim.durability.Durable? ==> grant.mayPublishDurable && claim.provenance >= 2)
  }

  predicate CoversCapability(env: Environment, grant: Grant, capability: Id) {
    capability != 0 && env.namespaceOf(capability) in grant.namespaces
  }

  /** Without a value only a boolean capability can be affirmed or denied; with one it must be
      acceptable, and the state known. */
  predicate FitsDescriptor(d: Descriptor, claim: Claim) {
    if claim.value == Absent then d.boolean || (claim.state != Supported && claim.state != Unsupported)
    else claim.state != Unknown && d.accepts(claim.value)
  }

  ghost predicate Described(env: Environment, capability: Id) {
    exists d :: d in env.descriptors && d.id == capability
  }

  ghost predicate FitsSchema(env: Environment, claim: Claim) {
    exists d :: d in env.descriptors && d.id == claim.capability && FitsDescriptor(d, claim)
  }

  ghost predicate ClaimAllowed(env: Environment, grant: Grant, claim: Claim) {
    CoversCapability(env, grant, claim.capability) && StaysWithin(grant, claim) && FitsSchema(env, claim)
  }

  /** The claim an edit makes: its own, about the capability it names, in the state its operation says. */
  function ClaimOf(edit: Edit): Claim {
    var state := if edit.operation == MarkUnsupported then Unsupported
                 else if edit.operation == MarkUnknown then Unknown
                 else if edit.operation == MarkRevalidationRequired then RevalidationRequired
                 else edit.claim.state;
    Claim(edit.capability, state, edit.claim.value, edit.claim.provenance, edit.claim.sourceClass,
          edit.claim.durability, edit.claim.coverage, edit.claim.firmware, edit.claim.driver, edit.claim.reason)
  }

  predicate OnlyRetracts(edit: Edit) {
    edit.operation == WithdrawClaim || edit.operation == SupersedeSourceEvidence
  }

  ghost predicate EditAllowed(env: Environment, grant: Grant, edit: Edit) {
    && CoversCapability(env, grant, edit.capability) && Described(env, edit.capability)
    && (OnlyRetracts(edit) || (StaysWithin(grant, ClaimOf(edit)) && FitsSchema(env, ClaimOf(edit))))
  }

  ghost predicate ClaimsDiffer(claims: seq<Claim>) {
    forall i, j :: 0 <= i < j < |claims| ==> claims[i].capability != claims[j].capability
  }

  /** The grant lets the scope publish this: in this mode, about this kind of entity, these claims and edits. */
  ghost predicate Grants(env: Environment, grant: Grant, request: Request) {
    && request.mode in grant.modes
    && env.kindOf(request.entity) in grant.entityKinds
    && |request.claims| <= grant.maxClaims
    && (forall claim :: claim in request.claims ==> ClaimAllowed(env, grant, claim))
    && ClaimsDiffer(request.claims)
    && (forall edit :: edit in request.edits ==> EditAllowed(env, grant, edit))
  }

  // ----- which requests are admitted -----

  /** Every identifier is set, and the payload is the one of the mode, within 4096 items. */
  predicate InShape(request: Request) {
    && request.publication != 0 && request.attempt != 0 && request.entity != 0 && request.entityGeneration != 0
    && request.publisher != 0 && request.boot != 0 && request.scope != 0 && request.source != 0
    && match request.mode {
       case FullSnapshot => request.edits == [] && |request.claims| <= 4096
       case PartialObservation => request.edits == [] && 1 <= |request.claims| <= 4096
       case Incremental => request.claims == [] && 1 <= |request.edits| <= 4096
    }
  }

  /** The request carries the current epoch, and its instance is registered in it, active, unfenced and
      of the scope the request names. */
  predicate InForce(st: State, request: Request) {
    var key := PublisherKey(request.publisher, request.boot);
    && request.epoch == st.epoch && request.epoch != 0
    && request.boot !in st.fencedBoots
    && key in st.publishers && st.publishers[key].active
    && st.publishers[key].scope == request.scope && st.publishers[key].epoch == st.epoch
  }

  ghost predicate Admissible(env: Environment, st: State, request: Request) {
    && InShape(request) && InForce(st, request)
    && request.scope in st.authorities && Grants(env, st.authorities[request.scope], request)
  }

  lemma {:induction false} FoundDescriptor(descriptors: seq<Descriptor>, id: Id)
    requires forall i, j :: 0 <= i < j < |descriptors| ==> descriptors[i].id != descriptors[j].id
    ensures forall d :: d in descriptors && d.id == id ==> FindDescriptor(descriptors, id) == Some(d)
    decreases |descriptors|
  {
    if descriptors != [] {
      assert descriptors == [descriptors[0]] + descriptors[1..];
      FoundDescriptor(descriptors[1..], id);
    }
  }

  lemma SchemaExactly(env: Environment, claim: Claim)
    requires env.Valid()
    ensures Described(env, claim.capability) <==> FindDescriptor(env.descriptors, claim.capability).Some?
    ensures FitsSchema(env, claim) <==>
              && FindDescriptor(env.descriptors, claim.capability).Some?
              && CheckClaimShape(FindDescriptor(env.descriptors, claim.capability).value, claim) == None
  {
    FoundDescriptor(env.descriptors, claim.capability);
  }

  lemma ProvenanceExactly(grant: Grant, claim: Claim)
    ensures CheckProvenance(grant, claim) == None <==> StaysWithin(grant, claim)
  {
  }

  lemma ClaimAllowedExactly(env: Environment, grant: Grant, claim: Claim, seen: set<Id>)
    requires env.Valid()
    ensures CheckClaim(env, grant, claim, seen) == None <==>
              ClaimAllowed(env, grant, claim) && claim.capability !in seen
  {
    hide CheckProvenance, StaysWithin, CheckClaimShape, FitsDescriptor;
    SchemaExactly(env, claim);
    ProvenanceExactly(grant, claim);
  }

  lemma EditAllowedExactly(env: Environment, grant: Grant, edit: Edit)
    requires env.Valid()
    ensures CheckEdit(env, grant, edit) == None <==> EditAllowed(env, grant, edit)
  {
    hide CheckProvenance, StaysWithin, CheckClaimShape, FitsDescriptor;
    assert !OnlyRetracts(edit) ==> EditClaim(edit) == ClaimOf(edit);
    SchemaExactly(env, ClaimOf(edit));
    ProvenanceExactly(grant, ClaimOf(edit));
  }

  ghost predicate EachAllowed(env: Environment, grant: Grant, claims: seq<Claim>, seen: set<Id>) {
    forall claim :: claim in claims ==> ClaimAllowed(env, grant, claim) && claim.capability !in seen
  }

  lemma FirstAndRest(env: Environment, grant: Grant, first: Claim, rest: seq<Claim>, seen: set<Id>)
    ensures EachAllowed(env, grant, [first] + rest, seen) && ClaimsDiffer([first] + rest) <==>
              && ClaimAllowed(env, grant, first) && first.capability !in seen
              && EachAllowed(env, grant, rest, seen + {first.capability}) && ClaimsDiffer(rest)
  {
    hide ClaimAllowed;
    var claims := [first] + rest;
    assert claims[0] == first && forall i :: 0 < i < |claims| ==> claims[i] == rest[i - 1];
    if EachAllowed(env, grant, claims, seen) && ClaimsDiffer(claims) {
      forall claim | claim in rest ensures claim in claims && claim.capability != first.capability {
        var i :| 0 <= i < |rest| && rest[i] == claim;
        assert claims[i + 1] == claim;
      }
      forall i, j | 0 <= i < j < |rest| ensures rest[i].capability != rest[j].capability {
        assert claims[i + 1] == rest[i] && claims[j + 1] == rest[j];
      }
    }
  }

  lemma {:induction false} ClaimsAllowedExactly(env: Environment, grant: Grant, claims: seq<Claim>, seen: set<Id>)
    requires env.Valid()
    ensures CheckClaims(env, grant, claims, seen) == None <==>
              EachAllowed(env, grant, claims, seen) && ClaimsDiffer(claims)
    decreases |claims|
  {
    if claims != [] {
      hide CheckClaim, ClaimAllowed, EachAllowed, ClaimsDiffer;
      assert claims == [claims[0]] + claims[1..];
      ClaimAllowedExactly(env, grant, claims[0], seen);
      ClaimsAllowedExactly(env, grant, claims[1..], seen + {claims[0].capability});
      FirstAndRest(env, grant, claims[0], claims[1..], seen);
    }
  }

  lemma {:induction false} EditsAllowedExactly(env: Environment, grant: Grant, edits: seq<Edit>)
    requires env.Valid()
    ensures CheckEdits(env, grant, edits) == None <==> forall edit :: edit in edits ==> EditAllowed(env, grant, edit)
    decreases |edits|
  {
    hide CheckEdit, EditAllowed;
    if edits != [] {
      EditAllowedExactly(env, grant, edits[0]);
      EditsAllowedExactly(env, grant, edits[1..]);
      assert edits == [edits[0]] + edits[1..];
    }
  }

  lemma ShapeExactly(request: Request)
    ensures CheckShape(request) == None <==> InShape(request)
  {
  }

  lemma InstanceExactly(st: State, request: Request)
    ensures CheckInstance(st, request) == None <==> InForce(st, request)
  {
  }

  /** A publication is admitted exactly when it is in shape, in force, and granted to its scope. */
  lemma AdmittedExactly(env: Environment, st: State, request: Request)
    requires env.Valid()
    ensures Admit(env, st, request) == None <==> Admissible(env, st, request)
  {
    hide CheckShape, InShape, CheckInstance, InForce, CheckClaims, CheckEdits, ClaimAllowed, EditAllowed;
    ShapeExactly(request);
    InstanceExactly(st, request);
    if request.scope in st.authorities {
      var grant := st.authorities[request.scope];
      ClaimsAllowedExactly(env, grant, request.claims, {});
      EditsAllowedExactly(env, grant, request.edits);
    }
  }

  /** What is not admissible is rejected and changes nothing; so whatever commits stays within its grant. */
  lemma CommittedWithinGrant(env: Environment, st: State, request: Request)
    requires env.Valid()
    ensures !Admissible(env, st, request) ==>
              Publish(env, st, request).1.Rejected? && Publish(env, st, request).0 == st
    ensures Publish(env, st, request).1.Committed? ==> Admissible(env, st, request)
  {
    hide Admit, Locate, PublishLocated, Admissible;
    AdmittedExactly(env, st, request);
  }

  // ----- what the records of a registry stay within -----

  predicate MayRegister(grant: Grant, publisher: Id) {
    grant.allowedPublishers == [] || publisher in grant.allowedPublishers
  }

  /** The grant is one of the record's scope and allows what it claims, of an entity of this kind. */
  predicate RecordWithin(env: Environment, grant: Grant, r: Record, e: Id) {
    && grant.scope == r.scope && env.kindOf(e) in grant.entityKinds
    && CoversCapability(env, grant, r.claim.capability) && StaysWithin(grant, r.claim)
  }

  /** One of the grants allows the record, and one of its scope admits its publisher. */
  ghost predicate Granted(env: Environment, grants: set<Grant>, r: Record, e: Id) {
    && (exists grant :: grant in grants && RecordWithin(env, grant, r, e))
    && (exists grant :: grant in grants && grant.scope == r.scope && MayRegister(grant, r.publisher))
  }

  ghost predicate RecordsGranted(env: Environment, entities: map<Id, Entity>, grants: set<Grant>) {
    forall e, c, r :: r in Held(entities, e, c) ==> Granted(env, grants, r, e)
  }

  ghost predicate GrantsKnown(authorities: map<Id, Grant>, grants: set<Grant>) {
    forall s :: s in authorities ==> authorities[s].scope == s && authorities[s] in grants
  }

  ghost predicate InstanceAdmitted(grants: set<Grant>, key: PublisherKey, scope: Id) {
    exists grant :: grant in grants && grant.scope == scope && MayRegister(grant, key.publisher)
  }

  ghost predicate InstancesAdmitted(publishers: map<PublisherKey, Runtime>, grants: set<Grant>) {
    forall k :: k in publishers ==> InstanceAdmitted(grants, k, publishers[k].scope)
  }

  ghost predicate Within(env: Environment, st: State, grants: set<Grant>) {
    && RecordsGranted(env, st.entities, grants)
    && GrantsKnown(st.authorities, grants)
    && InstancesAdmitted(st.publishers, grants)
  }

  lemma MoreGrants(env: Environment, st: State, grants: set<Grant>, more: set<Grant>)
    requires Within(env, st, grants) && grants <= more
    ensures Within(env, st, more)
  {
    hide Held, RecordWithin, MayRegister;
    forall k | k in st.publishers ensures InstanceAdmitted(more, k, st.publishers[k].scope) {
      assert InstanceAdmitted(grants, k, st.publishers[k].scope);
    }
    forall e, c, r | r in Held(st.entities, e, c) ensures Granted(env, more, r, e) {
      assert Granted(env, grants, r, e);
    }
  }

  lemma SameObservationStaysGranted(env: Environment, grants: set<Grant>, x: Record, r: Record, e: Id)
    requires Granted(env, grants, x, e) && SameObservation(x, r)
    ensures Granted(env, grants, r, e)
  {
    hide CoversCapability, MayRegister;
    var grant :| grant in grants && RecordWithin(env, grant, x, e);
    assert RecordWithin(env, grant, r, e);
  }

  lemma InheritedStaysGranted(env: Environment, before: map<Id, Entity>, after: map<Id, Entity>, grants: set<Grant>)
    requires RecordsGranted(env, before, grants) && NothingAdded(before, after)
    ensures RecordsGranted(env, after, grants)
  {
    hide Held, Granted, SameObservation;
    forall e, c, r | r in Held(after, e, c) ensures Granted(env, grants, r, e) {
      var x :| x in Held(before, e, c) && SameObservation(x, r);
      SameObservationStaysGranted(env, grants, x, r, e);
    }
  }

  // ----- a publication -----

  lemma {:induction false} AbsentAreCovered(env: Environment, grant: Grant, claims: seq<Claim>,
                                            descriptors: seq<Descriptor>)
    ensures forall c :: c in AbsentCapabilities(env, grant, claims, descriptors) ==> CoversCapability(env, grant, c)
  {
    if descriptors != [] {
      AbsentAreCovered(env, grant, claims, descriptors[..|descriptors| - 1]);
    }
  }

  /** Every claim a granted publication proposes is covered by the grant, the absences it reports too. */
  lemma ProposedWithin(env: Environment, grant: Grant, request: Request, claim: Claim)
    requires Grants(env, grant, request) && claim in Proposed(env, grant, request)
    ensures CoversCapability(env, grant, claim.capability) && StaysWithin(grant, claim)
  {
    hide FitsSchema, Described, AbsentCapabilities;
    if claim in Covered(request.claims, request.coverage) {
      var i :| 0 <= i < |request.claims| && Covered(request.claims, request.coverage)[i] == claim;
      assert ClaimAllowed(env, grant, request.claims[i]);
    } else if claim in AbsenceClaims(env, grant, request) {
      var ids := AbsentCapabilities(env, grant, request.claims, env.descriptors);
      var i :| 0 <= i < |ids| && AbsenceClaims(env, grant, request)[i] == claim;
      AbsentAreCovered(env, grant, request.claims, env.descriptors);
      assert ids[i] in ids;
      assert request.claims != [] ==> ClaimAllowed(env, grant, request.claims[0]);
    } else {
      var edit :| edit in request.edits && Claims(edit) && EditClaim(edit) == claim;
      assert EditAllowed(env, grant, edit) && EditClaim(edit) == ClaimOf(edit);
    }
  }

  lemma MadeIsWithin(env: Environment, grant: Grant, request: Request, claim: Claim)
    requires Grants(env, grant, request) && Makes(Proposed(env, grant, request), claim)
    ensures CoversCapability(env, grant, claim.capability) && StaysWithin(grant, claim)
  {
    hide Grants, Proposed, CoversCapability;
    var made :| made in Proposed(env, grant, request) && claim == made.(reason := claim.reason);
    ProposedWithin(env, grant, request, made);
  }

  lemma PublishTouchesOneEntity(env: Environment, st: State, request: Request, e: Id)
    requires e != request.entity
    ensures var after := Publish(env, st, request).0;
            && (e in after.entities <==> e in st.entities)
            && (e in st.entities ==> after.entities[e] == st.entities[e])
  {
    hide Admit, ClassifyReplay, CheckGenerations, ApplyRequest, SemanticChange, CommitEntity, ContentOf;
  }

  lemma PublishKeepsDirectory(env: Environment, st: State, request: Request)
    ensures var after := Publish(env, st, request).0;
            && after.authorities == st.authorities && after.publishers.Keys == st.publishers.Keys
            && forall k :: k in st.publishers ==> after.publishers[k].scope == st.publishers[k].scope
  {
    hide Admit, ClassifyReplay, CheckGenerations, ApplyRequest, SemanticChange, CommitEntity, ContentOf, PushReplay;
  }

  lemma PublishedIsGranted(env: Environment, st: State, request: Request, grants: set<Grant>, e: Id, c: Id, r: Record)
    requires env.Valid() && Within(env, st, grants) && r in Held(Publish(env, st, request).0.entities, e, c)
    ensures Granted(env, grants, r, e)
  {
    hide Publish, Granted, SameObservation, Admissible, EntitiesFrom, StaysWithin, CoversCapability;
    var after := Publish(env, st, request).0;
    CommittedWithinGrant(env, st, request);
    if r in Held(st.entities, e, c) {
    } else if e != request.entity {
      PublishTouchesOneEntity(env, st, request, e);
    } else {
      NewRecordIsGranted(env, st, request, grants, c, r);
    }
  }

  lemma NewRecordIsGranted(env: Environment, st: State, request: Request, grants: set<Grant>, c: Id, r: Record)
    requires env.Valid() && Within(env, st, grants) && Admissible(env, st, request)
    requires r in Held(Publish(env, st, request).0.entities, request.entity, c)
    ensures Granted(env, grants, r, request.entity)
  {
    hide Publish, SameObservation, EntitiesFrom, StaysWithin, CoversCapability, Proposed, Makes;
    var e, grant := request.entity, st.authorities[request.scope];
    PublishAddsOwnRecords(env, st, request);
    NewInEntity(st.entities, Publish(env, st, request).0.entities, OriginOf(env, st, request), e, c, r);
    if Inherits(Held(st.entities, e, c), r) {
      var x :| x in Held(st.entities, e, c) && SameObservation(x, r);
      SameObservationStaysGranted(env, grants, x, r, e);
    } else {
      MadeIsWithin(env, grant, request, r.claim);
      assert RecordWithin(env, grant, r, e);
      assert InstanceAdmitted(grants, request.Instance(), request.scope);
    }
  }

  lemma NewInEntity(before: map<Id, Entity>, after: map<Id, Entity>, origin: Origin, e: Id, c: Id, r: Record)
    requires EntitiesFrom(before, after, origin) && r in Held(after, e, c)
    ensures Inherits(Held(before, e, c), r) || Authored(r, origin)
  {
    assert ListFrom(Held(before, e, c), Held(after, e, c), origin);
  }

  lemma PublishStaysWithin(env: Environment, st: State, request: Request, grants: set<Grant>)
    requires env.Valid() && Within(env, st, grants)
    ensures Within(env, Publish(env, st, request).0, grants)
  {
    hide Publish, Granted, Held, InstanceAdmitted;
    PublishKeepsDirectory(env, st, request);
    var after := Publish(env, st, request).0;
    forall e, c, r | r in Held(after.entities, e, c) ensures Granted(env, grants, r, e) {
      PublishedIsGranted(env, st, request, grants, e, c, r);
    }
  }

  // ----- a restart -----

  lemma LoadedRecordIsGranted(env: Environment, st: State, payload: Payload, grants: set<Grant>, e: Id, c: Id,
                              r: Record)
    requires env.Valid() && StateOk(env, st) && Saves(st, payload) && Within(env, st, grants)
    requires r in Held(Load(payload).entities, e, c)
    ensures Granted(env, grants, r, e)
  {
    hide Granted, EntriesOk, FencesOk, LoadEntity, LoadRegistrations, LoadGrants, StoresFloors, StoresCapabilities,
      Resolve;
    var ctx, g := ContextOf(env, st), st.registryGeneration;
    LoadedKeys(ctx, st.entities, payload.entities, g);
    var se := LoadedFrom(ctx, st.entities, payload.entities, g, e);
    assert EntityOk(ctx, e, st.entities[e]);
    LoadedCapabilityMap(ctx, st.entities[e], se, g);
    var x := StoredRecord(ctx, st.entities[e], se, c, r);
    assert x in Held(st.entities, e, x.claim.capability);
    ReloadedStaysGranted(env, grants, x, r, e);
  }

  lemma StoredRecord(ctx: Context, entity: Entity, se: StoredEntity, c: Id, r: Record) returns (x: Record)
    requires Stores(entity, se) && c in entity.capabilities && r in LoadedEntry(entity, se, c).evidence
    ensures x.claim.capability in entity.capabilities && x in entity.capabilities[x.claim.capability].evidence
    ensures r == Reload(x, entity.id, entity.bound)
  {
    hide Resolve, Reload, StoresFloors, StoresCapabilities, StoresHeader;
    var claims := ClaimsFor(se, c);
    var i :| 0 <= i < |claims| && Reloaded(claims, entity.id, entity.bound)[i] == r;
    x := claims[i];
    FilterMembers(OfCapability(c), se.claims);
    assert x in claims;
  }

  lemma ReloadedStaysGranted(env: Environment, grants: set<Grant>, x: Record, r: Record, e: Id)
    requires Granted(env, grants, x, e) && r.claim == x.claim && r.scope == x.scope && r.publisher == x.publisher
    ensures Granted(env, grants, r, e)
  {
    hide CoversCapability, MayRegister, StaysWithin;
    var grant :| grant in grants && RecordWithin(env, grant, x, e);
    assert RecordWithin(env, grant, r, e);
  }

  lemma {:induction false} LoadedInstancesAdmitted(stored: seq<StoredRegistration>, fenced: set<Id>, epoch: nat,
                                                   grants: set<Grant>)
    requires forall r :: r in stored ==> InstanceAdmitted(grants, PublisherKey(r.publisher, r.boot), r.scope)
    ensures InstancesAdmitted(LoadRegistrations(stored, fenced, epoch), grants)
  {
    hide InstanceAdmitted;
    if stored != [] {
      var n := |stored| - 1;
      assert stored == stored[..n] + [stored[n]];
      LoadedInstancesAdmitted(stored[..n], fenced, epoch, grants);
    }
  }

  lemma RestartStaysWithin(env: Environment, st: State, payload: Payload, grants: set<Grant>)
    requires env.Valid() && StateOk(env, st) && Saves(st, payload) && Within(env, st, grants)
    ensures Within(env, Load(payload), grants)
  {
    hide Granted, Held, InstanceAdmitted, StateOk, LoadEntities, LoadRegistrations, LoadGrants;
    LoadedGrants(payload.authorities);
    var epoch := if payload.epoch == 0 then 1 else payload.epoch;
    LoadedInstancesAdmitted(payload.registrations, BootsOf(Filter(HasBoot, payload.fences)), epoch, grants);
    forall e, c, r | r in Held(Load(payload).entities, e, c) ensures Granted(env, grants, r, e) {
      LoadedRecordIsGranted(env, st, payload, grants, e, c, r);
    }
  }

  // ----- whole runs -----

  ghost function DeclaredIn(step: Step): set<Grant> {
    if step.Declare? then {step.grant} else {}
  }

  lemma OnlyDeclarationChanges(env: Environment, st: State, step: Step)
    requires !step.Submit? && !step.Restart? && !step.Declare?
    ensures Perform(env, st, step).authorities == st.authorities
  {
    hide MarkEverywhere, MarkAll, FirstEvictable, FenceListed, SeemsChanged, Materialize, MarkSourceEverywhere,
      AnyCapabilities;
  }

  lemma GrantsStayKnown(env: Environment, st: State, step: Step, grants: set<Grant>)
    requires GrantsKnown(st.authorities, grants) && !step.Submit? && !step.Restart?
    ensures GrantsKnown(Perform(env, st, step).authorities, grants + DeclaredIn(step))
  {
    hide RegisterPublisher, RetirePublisher, FenceWorkerBoot, AdvanceEpoch, ObserveGeneration, InvalidateEntity,
      InvalidateSource;
    if !step.Declare? {
      OnlyDeclarationChanges(env, st, step);
    }
  }

  lemma OnlyRegistrationAdds(env: Environment, st: State, step: Step, k: PublisherKey)
    requires !step.Submit? && !step.Restart? && !step.Register? && k in Perform(env, st, step).publishers
    ensures k in st.publishers && Perform(env, st, step).publishers[k].scope == st.publishers[k].scope
  {
    hide MarkEverywhere, MarkAll, FirstEvictable, FenceListed, SeemsChanged, Materialize, MarkSourceEverywhere,
      AnyCapabilities;
  }

  lemma RegistrationAdmits(env: Environment, st: State, publisher: Id, scope: Id, boot: Id, grants: set<Grant>)
    requires GrantsKnown(st.authorities, grants) && InstancesAdmitted(st.publishers, grants)
    ensures InstancesAdmitted(RegisterPublisher(env, st, publisher, scope, boot).0.publishers, grants)
  {
    var after := RegisterPublisher(env, st, publisher, scope, boot).0;
    forall k | k in after.publishers ensures InstanceAdmitted(grants, k, after.publishers[k].scope) {
      if after != st && k == PublisherKey(publisher, boot) {
        assert st.authorities[scope] in grants && MayRegister(st.authorities[scope], publisher);
      } else {
        assert InstanceAdmitted(grants, k, st.publishers[k].scope);
      }
    }
  }

  lemma InstancesStayAdmitted(env: Environment, st: State, step: Step, grants: set<Grant>)
    requires GrantsKnown(st.authorities, grants) && InstancesAdmitted(st.publishers, grants)
    requires !step.Submit? && !step.Restart?
    ensures InstancesAdmitted(Perform(env, st, step).publishers, grants)
  {
    hide InstanceAdmitted, RegisterPublisher, DeclareAuthority, RetirePublisher, FenceWorkerBoot, AdvanceEpoch,
      ObserveGeneration, InvalidateEntity, InvalidateSource;
    if step.Register? {
      RegistrationAdmits(env, st, step.publisher, step.scope, step.boot, grants);
    } else {
      forall k | k in Perform(env, st, step).publishers
        ensures InstanceAdmitted(grants, k, Perform(env, st, step).publishers[k].scope)
      {
        OnlyRegistrationAdds(env, st, step, k);
      }
    }
  }

  lemma MoreAdmit(publishers: map<PublisherKey, Runtime>, grants: set<Grant>, more: set<Grant>)
    requires InstancesAdmitted(publishers, grants) && grants <= more
    ensures InstancesAdmitted(publishers, more)
  {
    forall k | k in publishers ensures InstanceAdmitted(more, k, publishers[k].scope) {
      assert InstanceAdmitted(grants, k, publishers[k].scope);
    }
  }

  lemma StepStaysWithin(env: Environment, st: State, step: Step, grants: set<Grant>)
    requires env.Valid() && StateOk(env, st) && Enabled(st, step) && Within(env, st, grants)
    ensures Within(env, Perform(env, st, step), grants + DeclaredIn(step))
  {
    hide StateOk, RecordsGranted, GrantsKnown, InstancesAdmitted, Publish, Load, FenceWorkerBoot, AdvanceEpoch,
      ObserveGeneration, InvalidateEntity, InvalidateSource, Saves, OwnerOf;
    match step
    case Submit(request) =>
      PublishStaysWithin(env, st, request, grants);
      assert grants + DeclaredIn(step) == grants;
    case Restart(payload) =>
      RestartStaysWithin(env, st, payload, grants);
      assert grants + DeclaredIn(step) == grants;
    case _ =>
      GrantsStayKnown(env, st, step, grants);
      InstancesStayAdmitted(env, st, step, grants);
      MoreAdmit(Perform(env, st, step).publishers, grants, grants + DeclaredIn(step));
      MoreGrants(env, st, grants, grants + DeclaredIn(step));
      DirectAddsNothing(env, st, step);
      InheritedStaysGranted(env, st.entities, Perform(env, st, step).entities, grants + DeclaredIn(step));
  }

  /** The grants a run declares. */
  ghost function Declared(steps: seq<Step>): set<Grant> {
    set step | step in steps && step.Declare? :: step.grant
  }

  lemma {:induction false} RunStaysWithin(env: Environment, st: State, steps: seq<Step>, grants: set<Grant>)
    requires env.Valid() && StateOk(env, st) && IsRun(env, st, steps) && Within(env, st, grants)
    ensures Within(env, Run(env, st, steps), grants + Declared(steps))
    decreases |steps|
  {
    hide StateOk, Within, Perform, Enabled;
    if steps == [] {
      assert grants + Declared(steps) == grants;
    } else {
      assert steps == [steps[0]] + steps[1..];
      PerformKeepsState(env, st, steps[0]);
      StepStaysWithin(env, st, steps[0], grants);
      RunStaysWithin(env, Perform(env, st, steps[0]), steps[1..], grants + DeclaredIn(steps[0]));
      assert grants + Declared(steps) == grants + DeclaredIn(steps[0]) + Declared(steps[1..]);
    }
  }

  /** In every state of every run, restarts included, each record is one that a grant declared for its
      scope allows: the kind of entity, the namespace, the strength, the source class, the durability.
      And its publisher was admitted by a grant declared for the scope. */
  lemma EveryRecordWasGranted(env: Environment, epoch: nat, steps: seq<Step>, e: Id, c: Id, r: Record)
    requires env.Valid() && IsRun(env, Initial(epoch), steps)
    requires r in Held(Run(env, Initial(epoch), steps).entities, e, c)
    ensures exists step :: step in steps && step.Declare? && RecordWithin(env, step.grant, r, e)
    ensures exists step :: step in steps && step.Declare? && step.grant.scope == r.scope
                           && MayRegister(step.grant, r.publisher)
  {
    hide RecordWithin, MayRegister, Perform, Held;
    var st := Initial(epoch);
    NothingIsWithin(env, epoch);
    RunStaysWithin(env, st, steps, {});
    assert Granted(env, Declared(steps), r, e) by {
      assert RecordsGranted(env, Run(env, st, steps).entities, {} + Declared(steps));
      assert {} + Declared(steps) == Declared(steps);
    }
  }

  lemma NothingIsWithin(env: Environment, epoch: nat)
    ensures Within(env, Initial(epoch), {})
  {
  }
}
