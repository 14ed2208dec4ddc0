/** The mutations of the registry as functions from state to state: publication,
    registration, fencing, epochs, entity lifecycle, and recovery from a store. */
module RegistrySteps {
  import opened Sequences
  import opened Evidence
  import opened RegistryState

  // ----- publication: admission (request shape, epoch, fencing, authority, claims) -----

  function StrongestForSource(source: SourceClass): Rank {
    match source
    case HardwareEnumeration => 0
    case OperatingSystemApi => 1
    case DriverApi => 1
    case DeviceAgent => 1
    case SwitchAgent => 1
    case AdministrativeDeclaration => 2
    case FirmwareManifest => 3
    case VendorSdk => 3
    case ImportedManifest => 4
    case SyntheticBackend => 6
  }

  predicate LiveProcessObservation(provenance: Rank) { provenance <= DIRECT_DEVICE_OR_OS_API }

  function CheckShape(request: Request): Option<Error> {
    if request.publication == 0 || request.attempt == 0 || request.entity == 0 || request.entityGeneration == 0 then
      Some(InvalidArgument)
    else if request.publisher == 0 || request.boot == 0 || request.scope == 0 || request.source == 0 then
      Some(InvalidArgument)
    else if request.mode.Incremental? && request.claims != [] then Some(InvalidArgument)
    else if !request.mode.Incremental? && request.edits != [] then Some(InvalidArgument)
    else if request.mode.PartialObservation? && request.claims == [] then Some(EmptyCollection)
    else if request.mode.Incremental? && request.edits == [] then Some(EmptyCollection)
    else if |request.claims| > MAX_CLAIMS_PER_PUBLICATION then Some(TooManyItems)
    else if |request.edits| > MAX_CLAIMS_PER_PUBLICATION then Some(TooManyItems)
    else None
  }

  function CheckInstance(st: State, request: Request): Option<Error> {
    if request.epoch == 0 || request.epoch < st.epoch then Some(CoordinatorEpochStale)
    else if request.epoch > st.epoch then Some(CoordinatorEpochUnknown)
    else if request.boot in st.fencedBoots then Some(WorkerBootFenced)
    else if request.Instance() !in st.publishers then Some(UnauthorizedPublisher)
    else
      var runtime := st.publishers[request.Instance()];
      if !runtime.active then Some(WorkerBootStale)
      else if runtime.scope != request.scope then Some(AuthorityScopeViolation)
      else if runtime.epoch != st.epoch then Some(CoordinatorEpochStale)
      else None
  }

  function CheckGrant(env: Environment, st: State, request: Request): Option<Error> {
    if request.scope !in st.authorities then Some(UnknownAuthorityScope)
    else
      var grant := st.authorities[request.scope];
      if request.mode !in grant.modes then Some(PublicationModeNotAuthorized)
      else if env.kindOf(request.entity) !in grant.entityKinds then Some(AuthorityScopeViolation)
      else if |request.claims| > grant.maxClaims then Some(ClaimCountExceeded)
      else None
  }

  function FindDescriptor(descriptors: seq<Descriptor>, id: Id): (found: Option<Descriptor>)
    ensures found.Some? ==> found.value in descriptors && found.value.id == id
    ensures found.None? ==> forall d :: d in descriptors ==> d.id != id
  {
    if descriptors == [] then None
    else if descriptors[0].id == id then Some(descriptors[0])
    else FindDescriptor(descriptors[1..], id)
  }

  function CheckClaimShape(descriptor: Descriptor, claim: Claim): Option<Error> {
    if claim.value.Absent? then
      if !descriptor.boolean && (claim.state.Supported? || claim.state.Unsupported?) then Some(ValueTypeMismatch)
      else None
    else if claim.state.Unknown? then Some(ValueContradiction)
    else if !descriptor.accepts(claim.value) then Some(ValueRejected)
    else None
  }

  function CheckProvenance(grant: Grant, claim: Claim): Option<Error> {
    if claim.provenance < grant.strongest then Some(ProvenanceNotAuthorized)
    else if claim.provenance < StrongestForSource(claim.sourceClass) then Some(ProvenanceNotAuthorized)
    else if claim.durability.Durable? && !grant.mayPublishDurable then Some(DurablePublicationNotAuthorized)
    else if claim.durability.Durable? && LiveProcessObservation(claim.provenance) then
      Some(DurablePublicationNotAuthorized)
    else None
  }

  function CheckClaim(env: Environment, grant: Grant, claim: Claim, seen: set<Id>): Option<Error> {
    if claim.capability == 0 then Some(InvalidArgument)
    else if env.namespaceOf(claim.capability) !in grant.namespaces then Some(AuthorityScopeViolation)
    else if claim.capability in seen then Some(DuplicateClaim)
    else
      var descriptor := FindDescriptor(env.descriptors, claim.capability);
      if descriptor.None? then Some(UnknownCapability)
      else
        var provenance := CheckProvenance(grant, claim);
        if provenance.Some? then provenance else CheckClaimShape(descriptor.value, claim)
  }

  function CheckClaims(env: Environment, grant: Grant, claims: seq<Claim>, seen: set<Id>): Option<Error>
    decreases |claims|
  {
    if claims == [] then None
    else
      var first := CheckClaim(env, grant, claims[0], seen);
      if first.Some? then first else CheckClaims(env, grant, claims[1..], seen + {claims[0].capability})
  }

  function CheckEdit(env: Environment, grant: Grant, edit: Edit): Option<Error> {
    if edit.capability == 0 then Some(InvalidArgument)
    else if env.namespaceOf(edit.capability) !in grant.namespaces then Some(AuthorityScopeViolation)
    else
      var descriptor := FindDescriptor(env.descriptors, edit.capability);
      if descriptor.None? then Some(UnknownCapability)
      else if edit.operation.WithdrawClaim? || edit.operation.SupersedeSourceEvidence? then None
      else
        var provenance := CheckProvenance(grant, EditClaim(edit));
        if provenance.Some? then provenance else CheckClaimShape(descriptor.value, EditClaim(edit))
  }

  function CheckEdits(env: Environment, grant: Grant, edits: seq<Edit>): Option<Error>
    decreases |edits|
  {
    if edits == [] then None
    else
      var first := CheckEdit(env, grant, edits[0]);
      if first.Some? then first else CheckEdits(env, grant, edits[1..])
  }

  function CheckContents(env: Environment, grant: Grant, request: Request): Option<Error> {
    var claims := CheckClaims(env, grant, request.claims, {});
    if claims.Some? then claims else CheckEdits(env, grant, request.edits)
  }

  /** Steps 1 to 5 of a publication: everything that is checked before any state is touched. */
  function Admit(env: Environment, st: State, request: Request): (error: Option<Error>)
    ensures error.None? ==> request.Instance() in st.publishers && request.scope in st.authorities
  {
    var shape := CheckShape(request);
    if shape.Some? then shape
    else
      var instance := CheckInstance(st, request);
      if instance.Some? then instance
      else
        var grant := CheckGrant(env, st, request);
        if grant.Some? then grant else CheckContents(env, st.authorities[request.scope], request)
  }

  // ----- publication: classification and preconditions -----

  datatype Outcome =
    | Committed(previous: nat, next: nat, semantic: bool)
    | Replayed
    | Rejected(error: Error)

  function ContentOf(request: Request, grant: Grant): Content {
    Content(request.mode, request.entity, request.entityGeneration, request.coverage, request.scope, request.source,
            request.sourceGeneration, request.reason, grant.exclusive, request.claims,
            seq(|request.edits|, i requires 0 <= i < |request.edits| => EditContentOf(request.edits[i])))
  }

  function EditContentOf(edit: Edit): EditContent {
    EditContent(edit.operation, edit.capability, edit.claim.state, edit.claim.value, edit.claim.provenance,
                edit.claim.sourceClass, edit.claim.durability, edit.claim.coverage)
  }

  predicate Remembers(replay: seq<ReplayRecord>, attempt: Id) {
    exists r :: r in replay && r.attempt == attempt
  }

  /** Step 7: how an attempt relates to the ones this publisher instance committed. */
  function ClassifyReplay(replay: seq<ReplayRecord>, attempt: Id, content: Content): Option<Outcome> {
    if replay == [] then None
    else
      var latest := replay[|replay| - 1];
      if latest.attempt == attempt then
        if latest.content == content then Some(Replayed) else Some(Rejected(DuplicateAttemptConflict))
      else if Remembers(replay, attempt) then Some(Rejected(StaleReplay))
      else None
  }

  /** Steps 8 and 9: the source floor and the expected set generation. */
  function CheckGenerations(entity: Entity, request: Request): Option<Error> {
    if request.Key() in entity.highWater && request.sourceGeneration < entity.highWater[request.Key()] then
      Some(SourceGenerationStale)
    else if entity.hasSet then
      if request.expected < entity.setGeneration then Some(CapabilitySetGenerationStale)
      else if request.expected > entity.setGeneration then Some(CapabilitySetGenerationMismatch)
      else None
    else if request.expected != 0 then Some(CapabilitySetGenerationMismatch)
    else None
  }

  // ----- publication: commit -----

  function PushReplay(env: Environment, replay: seq<ReplayRecord>, record: ReplayRecord): seq<ReplayRecord> {
    (if |replay| >= env.options.maxReplay && replay != [] then replay[1..] else replay) + [record]
  }

  predicate SemanticChange(before: Entity, after: Entity) {
    before.published.None? || DigestOf(before.published) != Some(Views(SortedResolutions(after.capabilities)))
  }

  function RaiseFloor(floors: map<SourceKey, nat>, key: SourceKey, generation: nat): map<SourceKey, nat> {
    floors[key := if key in floors && floors[key] >= generation then floors[key] else generation]
  }

  /** The entity a commit leaves behind; `before` is the entity as step 10 found it. */
  function CommitEntity(before: Entity, after: Entity, request: Request, registryGeneration: nat): Entity {
    var setGeneration := if SemanticChange(before, after) then after.setGeneration + 1 else after.setGeneration;
    var settled := after.(hasSet := true, setGeneration := setGeneration, bound := after.current,
                          invalidated := false, reason := 0);
    settled.(published := Some(Materialize(settled, registryGeneration)),
             highWater := RaiseFloor(after.highWater, request.Key(), request.sourceGeneration))
  }

  function PutEntity(st: State, id: Id, entity: Entity): State {
    st.(entities := st.entities[id := entity])
  }

  function Commit(env: Environment, st: State, before: Entity, after: Entity, request: Request): (State, Outcome)
    requires request.Instance() in st.publishers && request.scope in st.authorities
  {
    var semantic := SemanticChange(before, after);
    var registryGeneration := if semantic then st.registryGeneration + 1 else st.registryGeneration;
    var entity := CommitEntity(before, after, request, registryGeneration);
    var runtime := st.publishers[request.Instance()];
    var record := ReplayRecord(request.attempt, request.publication,
                               ContentOf(request, st.authorities[request.scope]));
    (PutEntity(st, request.entity, entity).(
       registryGeneration := registryGeneration,
       publishers := st.publishers[request.Instance() := runtime.(replay := PushReplay(env, runtime.replay, record))]),
     Committed(if before.published.Some? then before.published.value.setGeneration else 0, entity.setGeneration,
               semantic))
  }

  /** Step 6: the entity a publication addresses exists at the generation it names. */
  function Locate(env: Environment, st: State, request: Request): (located: (State, Option<Error>))
    ensures located.1.None? ==> request.entity in located.0.entities
    ensures located.0.publishers == st.publishers && located.0.authorities == st.authorities
  {
    if request.entity !in st.entities then
      if |st.entities| >= env.options.maxEntities then (st, Some(TooManyItems))
      else (PutEntity(st, request.entity, NewEntity(request.entity, request.entityGeneration)), None)
    else
      var entity := st.entities[request.entity];
      if request.entityGeneration < entity.current then (st, Some(EntityGenerationStale))
      else if request.entityGeneration > entity.current then
        (PutEntity(st, request.entity, RetireGeneration(entity, request.entityGeneration)).(
           registryGeneration := st.registryGeneration + 1), None)
      else (st, None)
  }

  /** Steps 7 to 11 on the addressed entity. */
  function PublishLocated(env: Environment, st: State, request: Request): (State, Outcome)
    requires request.entity in st.entities
    requires request.Instance() in st.publishers && request.scope in st.authorities
  {
    var grant := st.authorities[request.scope];
    var entity := st.entities[request.entity];
    var replayed := ClassifyReplay(st.publishers[request.Instance()].replay, request.attempt,
                                   ContentOf(request, grant));
    if replayed.Some? then (st, replayed.value)
    else
      var stale := CheckGenerations(entity, request);
      if stale.Some? then (st, Rejected(stale.value))
      else
        var applied := ApplyRequest(env, st.epoch, grant, entity, request);
        if applied.error.Some? then (PutEntity(st, request.entity, applied.entity), Rejected(applied.error.value))
        else Commit(env, st, entity, applied.entity, request)
  }

  function Publish(env: Environment, st: State, request: Request): (State, Outcome) {
    var refused := Admit(env, st, request);
    if refused.Some? then (st, Rejected(refused.value))
    else
      var (located, error) := Locate(env, st, request);
      if error.Some? then (located, Rejected(error.value)) else PublishLocated(env, located, request)
  }

  // ----- authorities and publisher instances -----

  function CheckAuthority(grant: Grant): Option<Error> {
    if grant.scope == 0 || grant.entityKinds == [] then Some(InvalidArgument)
    else if |grant.entityKinds| > 16 then Some(TooManyItems)
    else if grant.namespaces == [] then Some(InvalidArgument)
    else if |grant.namespaces| > 64 then Some(TooManyItems)
    else if grant.modes == {} then Some(InvalidArgument)
    else if grant.maxClaims == 0 || grant.maxClaims > MAX_CLAIMS_PER_PUBLICATION then Some(InvalidArgument)
    else if 0 in grant.namespaces then Some(UnknownNamespace)
    else if |grant.allowedPublishers| > 4096 then Some(TooManyItems)
    else None
  }

  function DeclareAuthority(env: Environment, st: State, grant: Grant): (State, Option<Error>) {
    var invalid := CheckAuthority(grant);
    if invalid.Some? then (st, invalid)
    else if grant.scope !in st.authorities && |st.authorities| >= env.options.maxAuthorities then
      (st, Some(TooManyItems))
    else (st.(authorities := st.authorities[grant.scope := grant]), None)
  }

  function CheckRegistration(env: Environment, st: State, publisher: Id, scope: Id, boot: Id): Option<Error> {
    if publisher == 0 || scope == 0 || boot == 0 then Some(InvalidArgument)
    else if boot in st.fencedBoots then Some(WorkerBootFenced)
    else if scope !in st.authorities then Some(UnknownAuthorityScope)
    else if st.authorities[scope].allowedPublishers != [] && publisher !in st.authorities[scope].allowedPublishers then
      Some(UnauthorizedPublisher)
    else if PublisherKey(publisher, boot) !in st.publishers && |st.publishers| >= env.options.maxPublishers then
      Some(TooManyItems)
    else None
  }

  function RegisterPublisher(env: Environment, st: State, publisher: Id, scope: Id, boot: Id): (State, Option<Error>) {
    var refused := CheckRegistration(env, st, publisher, scope, boot);
    if refused.Some? then (st, refused)
    else
      (st.(publishers := st.publishers[PublisherKey(publisher, boot) := Runtime(scope, st.epoch, true, [])]), None)
  }

  function RetirePublisher(st: State, publisher: Id, boot: Id): (State, Option<Error>) {
    var key := PublisherKey(publisher, boot);
    if key !in st.publishers then (st, Some(UnknownPublisher))
    else (st.(publishers := st.publishers[key := st.publishers[key].(active := false)]), None)
  }

  // ----- fencing and epochs -----

  function MarkEverywhere(entities: map<Id, Entity>, mark: Mark, registryGeneration: nat): map<Id, Entity> {
    map e | e in entities :: Refresh(MarkAll(entities[e], mark), registryGeneration)
  }

  predicate OwnsCurrent(entity: Entity, boot: Id) {
    exists c :: c in entity.capabilities &&
      exists r :: r in entity.capabilities[c].evidence && r.key.boot == boot && IsCurrent(r)
  }

  predicate OwnsCurrentEvidence(entities: map<Id, Entity>, boot: Id) {
    exists e :: e in entities && OwnsCurrent(entities[e], boot)
  }

  /** The oldest fence that no longer protects current evidence, or the number of fences. */
  function FirstEvictable(entities: map<Id, Entity>, fences: seq<Fence>): (index: nat)
    ensures index <= |fences|
    ensures forall i :: 0 <= i < index ==> OwnsCurrentEvidence(entities, fences[i].boot)
    ensures index < |fences| ==> !OwnsCurrentEvidence(entities, fences[index].boot)
  {
    if fences == [] || !OwnsCurrentEvidence(entities, fences[0].boot) then 0
    else 1 + FirstEvictable(entities, fences[1..])
  }

  /** Room for one more fence: none, or one evicted fence, or a refusal. */
  function MakeRoom(env: Environment, st: State): (room: (State, Option<Error>))
    ensures room.0.entities == st.entities && room.0.registryGeneration == st.registryGeneration
    ensures room.0.fencedBoots <= st.fencedBoots
  {
    if |st.fences| < env.options.maxFences then (st, None)
    else
      var victim := FirstEvictable(st.entities, st.fences);
      if victim == |st.fences| then (st, Some(TooManyItems))
      else
        (st.(fences := st.fences[..victim] + st.fences[victim + 1..],
             fencedBoots := st.fencedBoots - {st.fences[victim].boot}), None)
  }

  function BootMark(boot: Id, reason: Id): Mark {
    Mark(CurrentWhere(Some(boot), None, false), Fenced, reason)
  }

  /** `owner` is the publisher the fence record names; see OwnerOf. */
  function FenceWorkerBoot(env: Environment, st: State, boot: Id, owner: Id, reason: Id): (State, Option<Error>) {
    if boot == 0 then (st, Some(InvalidArgument))
    else if boot in st.fencedBoots then (st, None)
    else
      var (roomy, full) := MakeRoom(env, st);
      if full.Some? then (st, full)
      else
        (roomy.(
           fencedBoots := roomy.fencedBoots + {boot},
           fences := roomy.fences + [Fence(boot, owner, reason)],
           publishers := roomy.publishers - {PublisherKey(owner, boot)},
           entities := MarkEverywhere(roomy.entities, BootMark(boot, reason), roomy.registryGeneration),
           registryGeneration := roomy.registryGeneration + 1), None)
  }

  /** The source walks a hash table and keeps the last publisher it meets for the boot. */
  ghost predicate OwnerOf(st: State, boot: Id, owner: Id) {
    if exists k :: k in st.publishers && k.boot == boot then PublisherKey(owner, boot) in st.publishers
    else owner == 0
  }

  /** Fences every listed boot until the fence capacity is reached. */
  function FenceListed(fences: seq<Fence>, fenced: set<Id>, boots: seq<Id>, limit: nat, reason: Id):
    (seq<Fence>, set<Id>)
    decreases |boots|
  {
    if boots == [] then (fences, fenced)
    else if boots[0] in fenced then FenceListed(fences, fenced, boots[1..], limit, reason)
    else if |fences| >= limit then (fences, fenced)
    else FenceListed(fences + [Fence(boots[0], 0, reason)], fenced + {boots[0]}, boots[1..], limit, reason)
  }

  function EpochMark(reason: Id): Mark {
    Mark(CurrentWhere(None, None, false), AwaitingRevalidation, reason)
  }

  /** `boots` lists the boots of the registered instances in hash table order. */
  function AdvanceEpoch(env: Environment, st: State, boots: seq<Id>, reason: Id): State {
    var (fences, fenced) := FenceListed(st.fences, st.fencedBoots, boots, env.options.maxFences, reason);
    st.(epoch := st.epoch + 1, publishers := map[], fences := fences, fencedBoots := fenced,
        entities := MarkEverywhere(st.entities, EpochMark(reason), st.registryGeneration),
        registryGeneration := st.registryGeneration + 1)
  }

  ghost predicate ListsBoots(st: State, boots: seq<Id>) {
    forall b :: b in boots <==> exists k :: k in st.publishers && k.boot == b
  }

  // ----- entity lifecycle -----

  function ObserveGeneration(env: Environment, st: State, id: Id, generation: nat): (State, Option<Error>) {
    if id == 0 || generation == 0 then (st, Some(InvalidArgument))
    else if id !in st.entities then
      if |st.entities| >= env.options.maxEntities then (st, Some(TooManyItems))
      else (PutEntity(st, id, NewEntity(id, generation)), None)
    else
      var entity := st.entities[id];
      if entity.current == 0 then (PutEntity(st, id, entity.(current := generation, bound := generation)), None)
      else if generation < entity.current then (st, Some(EntityGenerationStale))
      else if generation == entity.current then (st, None)
      else
        (PutEntity(st, id, RetireGeneration(entity, generation)).(registryGeneration := st.registryGeneration + 1),
         None)
  }

  function EntityMark(reason: Id): Mark {
    Mark(CurrentWhere(None, None, true), AwaitingRevalidation, reason)
  }

  /** The source's own test for having changed something. */
  predicate SeemsChanged(before: Entity, after: Entity) {
    || !before.invalidated
    || exists c :: c in after.capabilities && !ResolutionOf(c, after.capabilities[c]).Actionable()
  }

  function InvalidateEntity(st: State, id: Id, generation: nat, reason: Id): (State, Option<Error>) {
    if id !in st.entities then (st, Some(UnknownEntity))
    else if generation == 0 || generation != st.entities[id].current then (st, Some(UnknownEntityGeneration))
    else
      var entity := st.entities[id];
      var marked := MarkAll(entity, EntityMark(reason));
      if SeemsChanged(entity, marked) then
        var invalidated := if entity.invalidated then marked else marked.(invalidated := true, reason := reason);
        (PutEntity(st, id, Refresh(invalidated, st.registryGeneration)).(
           registryGeneration := st.registryGeneration + 1), None)
      else (PutEntity(st, id, marked), None)
  }

  function SourceMark(source: Id, reason: Id): Mark {
    Mark(CurrentWhere(None, Some(source), true), AwaitingRevalidation, reason)
  }

  function MarkSource(entity: Entity, mark: Mark, registryGeneration: nat): Entity {
    if entity.capabilities == map[] then entity else Refresh(MarkAll(entity, mark), registryGeneration)
  }

  function MarkSourceEverywhere(entities: map<Id, Entity>, mark: Mark, registryGeneration: nat): map<Id, Entity> {
    map e | e in entities :: MarkSource(entities[e], mark, registryGeneration)
  }

  predicate AnyCapabilities(entities: map<Id, Entity>) {
    exists e :: e in entities && entities[e].capabilities != map[]
  }

  function InvalidateSource(st: State, source: Id, reason: Id): (State, Option<Error>) {
    if source == 0 then (st, Some(InvalidArgument))
    else
      (st.(entities := MarkSourceEverywhere(st.entities, SourceMark(source, reason), st.registryGeneration),
           registryGeneration := if AnyCapabilities(st.entities) then st.registryGeneration + 1
                                 else st.registryGeneration), None)
  }

  // ----- save and load -----

  datatype StoredEntity = StoredEntity(
    id: Id, current: nat, bound: nat, hasSet: bool, setGeneration: nat, invalidated: bool, reason: Id,
    capabilities: seq<(Id, nat)>, claims: seq<Record>, floors: seq<(SourceKey, nat)>)

  datatype StoredRegistration = StoredRegistration(publisher: Id, boot: Id, scope: Id)

  datatype Payload = Payload(
    epoch: nat, registryGeneration: nat, authorities: seq<Grant>, fences: seq<Fence>,
    registrations: seq<StoredRegistration>, entities: seq<StoredEntity>)

  function LoadGrants(grants: seq<Grant>): map<Id, Grant> {
    if grants == [] then map[]
    else
      var n := |grants| - 1;
      var loaded := LoadGrants(grants[..n]);
      if grants[n].scope == 0 then loaded else loaded[grants[n].scope := grants[n]]
  }

  predicate HasBoot(f: Fence) { f.boot != 0 }

  function BootsOf(fences: seq<Fence>): set<Id> { set f | f in fences :: f.boot }

  function LoadRegistrations(stored: seq<StoredRegistration>, fenced: set<Id>, epoch: nat): map<PublisherKey, Runtime> {
    if stored == [] then map[]
    else
      var n := |stored| - 1;
      var loaded := LoadRegistrations(stored[..n], fenced, epoch);
      var r := stored[n];
      if r.publisher == 0 || r.boot == 0 || r.boot in fenced then loaded
      else loaded[PublisherKey(r.publisher, r.boot) := Runtime(r.scope, epoch, false, [])]
  }

  /** Nothing a process observed is current after a load; durable declarations are, unless fenced. */
  function Reload(r: Record, id: Id, bound: nat): Record {
    r.(entity := id, entityGeneration := bound,
       currentness := if r.currentness.Fenced? then Fenced
                      else if r.claim.durability.Durable? then Current
                      else AwaitingRevalidation)
  }

  function LoadCapabilities(stored: seq<(Id, nat)>): map<Id, Entry> {
    if stored == [] then map[]
    else
      var n := |stored| - 1;
      var loaded := LoadCapabilities(stored[..n]);
      if stored[n].0 == 0 then loaded else loaded[stored[n].0 := Entry(stored[n].1, [], None)]
  }

  function LoadClaims(capabilities: map<Id, Entry>, claims: seq<Record>, id: Id, bound: nat): map<Id, Entry> {
    if claims == [] then capabilities
    else
      var n := |claims| - 1;
      var loaded := LoadClaims(capabilities, claims[..n], id, bound);
      var c := claims[n].claim.capability;
      if c == 0 then loaded
      else
        var entry := if c in loaded then loaded[c] else Entry(0, [], None);
        loaded[c := entry.(evidence := entry.evidence + [Reload(claims[n], id, bound)])]
  }

  function LoadFloors(floors: seq<(SourceKey, nat)>): map<SourceKey, nat> {
    if floors == [] then map[]
    else
      var n := |floors| - 1;
      var loaded := LoadFloors(floors[..n]);
      if floors[n].0.source == 0 then loaded else loaded[floors[n].0 := floors[n].1]
  }

  function ResolveAll(capabilities: map<Id, Entry>): map<Id, Entry> {
    map c | c in capabilities ::
      capabilities[c].(resolution := Some(Resolve(c, capabilities[c].generation, capabilities[c].evidence)))
  }

  function LoadEntity(stored: StoredEntity, registryGeneration: nat): Entity {
    var bound := if stored.bound != 0 then stored.bound else stored.current;
    var capabilities := LoadClaims(LoadCapabilities(stored.capabilities), stored.claims, stored.id, bound);
    Refresh(Entity(stored.id, stored.current, bound, stored.hasSet, stored.setGeneration, stored.invalidated,
                   stored.reason, ResolveAll(capabilities), LoadFloors(stored.floors), None), registryGeneration)
  }

  function LoadEntities(stored: seq<StoredEntity>, registryGeneration: nat): map<Id, Entity> {
    if stored == [] then map[]
    else
      var n := |stored| - 1;
      var loaded := LoadEntities(stored[..n], registryGeneration);
      if stored[n].id == 0 then loaded else loaded[stored[n].id := LoadEntity(stored[n], registryGeneration)]
  }

  function Load(payload: Payload): State {
    var epoch := if payload.epoch == 0 then 1 else payload.epoch;
    var fences := Filter(HasBoot, payload.fences);
    State(epoch, payload.registryGeneration, LoadGrants(payload.authorities),
          LoadRegistrations(payload.registrations, BootsOf(fences), epoch),
          BootsOf(fences), fences, LoadEntities(payload.entities, payload.registryGeneration))
  }

  ghost predicate StoresHeader(e: Entity, se: StoredEntity) {
    && se.id == e.id && se.current == e.current && se.bound == e.bound && se.hasSet == e.hasSet
    && se.setGeneration == e.setGeneration && se.invalidated == e.invalidated && se.reason == e.reason
  }

  ghost predicate DistinctFirsts<K, V>(pairs: seq<(K, V)>) {
    forall i, j :: 0 <= i < j < |pairs| ==> pairs[i].0 != pairs[j].0
  }

  ghost predicate StoresCapabilities(e: Entity, stored: seq<(Id, nat)>) {
    && DistinctFirsts(stored)
    && forall p :: p in stored <==> p.0 in e.capabilities && e.capabilities[p.0].generation == p.1
  }

  /** The stored claims are the live records, in any order. */
  ghost predicate StoresClaims(e: Entity, claims: seq<Record>) {
    && Distinct(claims)
    && forall r :: r in claims <==>
         r.claim.capability in e.capabilities && r in e.capabilities[r.claim.capability].evidence && Live(r)
  }

  ghost predicate StoresFloors(e: Entity, floors: seq<(SourceKey, nat)>) {
    && DistinctFirsts(floors)
    && forall p :: p in floors <==> p.0 in e.highWater && e.highWater[p.0] == p.1
  }

  ghost predicate Stores(e: Entity, se: StoredEntity) {
    && StoresHeader(e, se) && StoresCapabilities(e, se.capabilities)
    && StoresClaims(e, se.claims) && StoresFloors(e, se.floors)
  }

  ghost predicate SavesAuthorities(st: State, grants: seq<Grant>) {
    && (forall i, j :: 0 <= i < j < |grants| ==> grants[i].scope != grants[j].scope)
    && forall g :: g in grants <==> g.scope in st.authorities && st.authorities[g.scope] == g
  }

  ghost predicate SavesRegistrations(st: State, stored: seq<StoredRegistration>) {
    forall r :: r in stored <==>
      && PublisherKey(r.publisher, r.boot) in st.publishers
      && st.publishers[PublisherKey(r.publisher, r.boot)].active
      && st.publishers[PublisherKey(r.publisher, r.boot)].scope == r.scope
  }

  ghost predicate SavesFences(st: State, fences: seq<Fence>) {
    Distinct(fences) && forall f :: f in fences <==> f in st.fences
  }

  ghost predicate SavesEntities(entities: map<Id, Entity>, stored: seq<StoredEntity>) {
    && (forall i, j :: 0 <= i < j < |stored| ==> stored[i].id != stored[j].id)
    && (forall se :: se in stored ==> se.id in entities && Stores(entities[se.id], se))
    && forall e :: e in entities ==> exists se :: se in stored && se.id == e
  }

  /** The payloads Save may build from a state. The source sorts every list, but its
      sort leaves records that differ in the worker boot only in an unspecified order. */
  ghost predicate Saves(st: State, payload: Payload) {
    && payload.epoch == st.epoch && payload.registryGeneration == st.registryGeneration
    && SavesAuthorities(st, payload.authorities)
    && SavesFences(st, payload.fences)
    && SavesRegistrations(st, payload.registrations)
    && SavesEntities(st.entities, payload.entities)
  }

  // ----- snapshots -----

  datatype SnapshotEntry = SnapshotEntry(entity: Id, generation: nat, setGeneration: nat,
                                         digest: Option<seq<DigestView>>)

  datatype Snapshot = Snapshot(registryGeneration: nat, epoch: nat, entries: seq<SnapshotEntry>)

  function EntryFor(st: State, id: Id): SnapshotEntry
    requires id in st.entities
  {
    SnapshotEntry(id, st.entities[id].current, st.entities[id].setGeneration, DigestOf(st.entities[id].published))
  }

  /** CreateSnapshot over the known entities among `ids`, in that order. */
  function TakeSnapshot(st: State, ids: seq<Id>): Snapshot
    requires forall id :: id in ids ==> id in st.entities
  {
    Snapshot(st.registryGeneration, st.epoch,
             seq(|ids|, i requires 0 <= i < |ids| => assert ids[i] in ids; EntryFor(st, ids[i])))
  }

  /** CheckSnapshot finds no reason to call the snapshot stale. */
  predicate SnapshotIsCurrent(st: State, snapshot: Snapshot) {
    && snapshot.registryGeneration == st.registryGeneration
    && snapshot.epoch == st.epoch
    && forall entry :: entry in snapshot.entries ==> entry.entity in st.entities && EntryFor(st, entry.entity) == entry
  }

  // ----- runs -----

  datatype Step =
    | Declare(grant: Grant)
    | Register(publisher: Id, scope: Id, boot: Id)
    | Retire(publisher: Id, boot: Id)
    | Submit(request: Request)
    | FenceBoot(boot: Id, owner: Id, reason: Id)
    | Advance(boots: seq<Id>, reason: Id)
    | Observe(entity: Id, generation: nat)
    | Invalidate(entity: Id, generation: nat, reason: Id)
    | InvalidateSourceEvidence(source: Id, reason: Id)
    | Restart(payload: Payload)

  ghost predicate Enabled(st: State, step: Step) {
    match step
    case FenceBoot(boot, owner, _) => OwnerOf(st, boot, owner)
    case Advance(boots, _) => ListsBoots(st, boots)
    case Restart(payload) => Saves(st, payload)
    case _ => true
  }

  function Perform(env: Environment, st: State, step: Step): State {
    match step
    case Declare(grant) => DeclareAuthority(env, st, grant).0
    case Register(publisher, scope, boot) => RegisterPublisher(env, st, publisher, scope, boot).0
    case Retire(publisher, boot) => RetirePublisher(st, publisher, boot).0
    case Submit(request) => Publish(env, st, request).0
    case FenceBoot(boot, owner, reason) => FenceWorkerBoot(env, st, boot, owner, reason).0
    case Advance(boots, reason) => AdvanceEpoch(env, st, boots, reason)
    case Observe(entity, generation) => ObserveGeneration(env, st, entity, generation).0
    case Invalidate(entity, generation, reason) => InvalidateEntity(st, entity, generation, reason).0
    case InvalidateSourceEvidence(source, reason) => InvalidateSource(st, source, reason).0
    case Restart(payload) => Load(payload)
  }

  ghost predicate IsRun(env: Environment, st: State, steps: seq<Step>)
    decreases |steps|
  {
    steps == [] || (Enabled(st, steps[0]) && IsRun(env, Perform(env, st, steps[0]), steps[1..]))
  }

  function Run(env: Environment, st: State, steps: seq<Step>): State
    decreases |steps|
  {
    if steps == [] then st else Run(env, Perform(env, st, steps[0]), steps[1..])
  }

  function Initial(epoch: nat): State {
    State(if epoch == 0 then 1 else epoch, 0, map[], map[], {}, [], map[])
  }
}
