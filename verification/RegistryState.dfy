/** The state of the registry and the changes every mutation makes to one
    entity: marking evidence, applying a claim, retiring a generation. */
module RegistryState {
  import opened Sequences
  import opened Values
  import opened Evidence

  const MAX_CLAIMS_PER_PUBLICATION: nat := 4096

  datatype Error =
    | InvalidArgument | EmptyCollection | TooManyItems | CoordinatorEpochStale | CoordinatorEpochUnknown
    | WorkerBootFenced | UnauthorizedPublisher | WorkerBootStale | AuthorityScopeViolation
    | UnknownAuthorityScope | PublicationModeNotAuthorized | ClaimCountExceeded | DuplicateClaim
    | UnknownCapability | ProvenanceNotAuthorized | DurablePublicationNotAuthorized | ValueTypeMismatch
    | ValueContradiction | ValueRejected | EntityGenerationStale | DuplicateAttemptConflict | StaleReplay
    | SourceGenerationStale | CapabilitySetGenerationStale | CapabilitySetGenerationMismatch
    | EvidenceLimitExceeded | UnknownPublisher | UnknownEntity | UnknownEntityGeneration | UnknownNamespace
    | MalformedRequest

  datatype Options = Options(
    maxEntities: nat, maxCapabilities: nat, maxEvidence: nat, maxReplay: nat, maxFences: nat,
    maxPublishers: nat, maxAuthorities: nat)

  /** What the registry needs to know of a capability descriptor. */
  datatype Descriptor = Descriptor(id: Id, boolean: bool, absenceIsNegative: bool, accepts: CapabilityValue -> bool)

  /** The fixed surroundings of a registry. */
  datatype Environment = Environment(
    options: Options, descriptors: seq<Descriptor>, namespaceOf: Id -> Id, kindOf: Id -> Id)
  {
    ghost predicate Valid() {
      && options.maxEvidence >= 1 && options.maxReplay >= 1
      && forall i, j :: 0 <= i < j < |descriptors| ==> descriptors[i].id != descriptors[j].id
    }
  }

  datatype Mode = FullSnapshot | Incremental | PartialObservation

  datatype Operation =
    | UpsertClaim | WithdrawClaim | MarkUnsupported | MarkUnknown | MarkRevalidationRequired
    | SupersedeSourceEvidence

  datatype Edit = Edit(operation: Operation, capability: Id, claim: Claim)

  datatype Request = Request(
    mode: Mode, attempt: Id, publication: Id, epoch: nat, scope: Id, publisher: Id, boot: Id, source: Id,
    sourceGeneration: nat, entity: Id, entityGeneration: nat, expected: nat, claims: seq<Claim>,
    edits: seq<Edit>, coverage: Coverage, reason: Id)
  {
    function Key(): SourceKey { SourceKey(source, boot) }
    function Instance(): PublisherKey { PublisherKey(publisher, boot) }
  }

  /** A publisher inside one worker boot. */
  datatype PublisherKey = PublisherKey(publisher: Id, boot: Id)

  datatype Grant = Grant(
    scope: Id, entityKinds: seq<Id>, namespaces: seq<Id>, modes: set<Mode>, exclusive: bool,
    mayPublishDurable: bool, strongest: Rank, allowedPublishers: seq<Id>, maxClaims: nat)

  datatype EditContent = EditContent(
    operation: Operation, capability: Id, state: CapabilityState, value: CapabilityValue, provenance: Rank,
    sourceClass: SourceClass, durability: Durability, coverage: Coverage)

  /** The bytes the content digest of a request is taken over, as fields. */
  datatype Content = Content(
    mode: Mode, entity: Id, entityGeneration: nat, coverage: Coverage, scope: Id, source: Id,
    sourceGeneration: nat, reason: Id, exclusive: bool, claims: seq<Claim>, edits: seq<EditContent>)

  datatype ReplayRecord = ReplayRecord(attempt: Id, publication: Id, content: Content)

  datatype Runtime = Runtime(scope: Id, epoch: nat, active: bool, replay: seq<ReplayRecord>)

  datatype Fence = Fence(boot: Id, publisher: Id, reason: Id)

  /** One capability of an entity: its evidence list and the resolution cached for it. */
  datatype Entry = Entry(generation: nat, evidence: seq<Record>, resolution: Option<Resolution>)

  /** The immutable set an entity serves to readers. */
  datatype EntitySet = EntitySet(
    entityGeneration: nat, setGeneration: nat, registryGeneration: nat, invalidated: bool, reason: Id,
    resolutions: seq<Resolution>)

  datatype Entity = Entity(
    id: Id, current: nat, bound: nat, hasSet: bool, setGeneration: nat, invalidated: bool, reason: Id,
    capabilities: map<Id, Entry>, highWater: map<SourceKey, nat>, published: Option<EntitySet>)

  datatype State = State(
    epoch: nat, registryGeneration: nat, authorities: map<Id, Grant>, publishers: map<PublisherKey, Runtime>,
    fencedBoots: set<Id>, fences: seq<Fence>, entities: map<Id, Entity>)

  // ----- the served set and its digest -----

  function Views(resolutions: seq<Resolution>): seq<DigestView> {
    seq(|resolutions|, i requires 0 <= i < |resolutions| => View(resolutions[i]))
  }

  /** The digest of a served set, as the fields it is taken over. */
  function DigestOf(served: Option<EntitySet>): Option<seq<DigestView>> {
    if served.None? then None else Some(Views(served.value.resolutions))
  }

  function ResolutionOf(capability: Id, entry: Entry): Resolution {
    if entry.resolution.Some? then entry.resolution.value else Blank(capability, 0, [])
  }

  /** The cached resolutions of an entity in ascending order of capability. */
  function SortedResolutions(capabilities: map<Id, Entry>): seq<Resolution> {
    var ids := Ascending(capabilities.Keys);
    seq(|ids|, i requires 0 <= i < |ids| => assert ids[i] in ids; ResolutionOf(ids[i], capabilities[ids[i]]))
  }

  function Materialize(entity: Entity, registryGeneration: nat): EntitySet {
    EntitySet(entity.bound, entity.setGeneration, registryGeneration, entity.invalidated, entity.reason,
              SortedResolutions(entity.capabilities))
  }

  function Refresh(entity: Entity, registryGeneration: nat): Entity {
    entity.(published := Some(Materialize(entity, registryGeneration)))
  }

  function NewEntity(id: Id, generation: nat): Entity {
    Entity(id, generation, generation, false, 0, false, 0, map[], map[], None)
  }

  /** RetireGeneration: nothing of the previous generation stays current. */
  function RetireGeneration(entity: Entity, generation: nat): Entity {
    NewEntity(entity.id, generation)
  }

  // ----- marking evidence as no longer current -----

  datatype Selector =
    | LiveOf(key: SourceKey)
    | LiveProcessBoundOfOthers(instance: PublisherKey)
    | CurrentWhere(boot: Option<Id>, source: Option<Id>, includeDurable: bool)

  predicate Selects(selector: Selector, r: Record) {
    match selector
    case LiveOf(key) => r.key == key && Live(r)
    case LiveProcessBoundOfOthers(instance) =>
      PublisherKey(r.publisher, r.key.boot) != instance && r.claim.durability.ProcessBound? && Live(r)
    case CurrentWhere(boot, source, includeDurable) =>
      && (boot.None? || r.key.boot == boot.value)
      && (source.None? || r.key.source == source.value)
      && (includeDurable || r.claim.durability.ProcessBound?)
      && IsCurrent(r)
  }

  datatype Mark = Mark(selector: Selector, to: Currentness, reason: Id)

  function MarkRecord(r: Record, mark: Mark): Record {
    if Selects(mark.selector, r) then r.(currentness := mark.to, claim := r.claim.(reason := mark.reason)) else r
  }

  function MarkRecords(evidence: seq<Record>, mark: Mark): (marked: seq<Record>)
    ensures |marked| == |evidence|
    ensures forall i :: 0 <= i < |evidence| ==> marked[i] == MarkRecord(evidence[i], mark)
  {
    seq(|evidence|, i requires 0 <= i < |evidence| => MarkRecord(evidence[i], mark))
  }

  predicate Touches(evidence: seq<Record>, mark: Mark) {
    exists r :: r in evidence && Selects(mark.selector, r)
  }

  function MarkEntry(capability: Id, entry: Entry, mark: Mark): Entry {
    if Touches(entry.evidence, mark) then
      var evidence := MarkRecords(entry.evidence, mark);
      Entry(entry.generation + 1, evidence, Some(Resolve(capability, entry.generation + 1, evidence)))
    else entry
  }

  function MarkAll(entity: Entity, mark: Mark): Entity {
    entity.(capabilities := map c | c in entity.capabilities :: MarkEntry(c, entity.capabilities[c], mark))
  }

  // ----- applying one claim -----

  /** The index of the oldest record that is neither current nor dormant. */
  function OldestRetired(evidence: seq<Record>): (index: nat)
    ensures index <= |evidence|
    ensures forall i :: 0 <= i < index ==> Live(evidence[i])
    ensures index < |evidence| ==> !Live(evidence[index])
  {
    if evidence == [] || !Live(evidence[0]) then 0 else 1 + OldestRetired(evidence[1..])
  }

  function Without(evidence: seq<Record>, index: nat): seq<Record>
    requires index < |evidence|
  {
    evidence[..index] + evidence[index + 1..]
  }

  /** TrimEvidence: drop the oldest retired records while the list is too long. */
  function Trim(evidence: seq<Record>, limit: nat): (trimmed: seq<Record>)
    ensures |trimmed| <= |evidence|
    decreases |evidence|
  {
    if |evidence| <= limit || OldestRetired(evidence) == |evidence| then evidence
    else Trim(Without(evidence, OldestRetired(evidence)), limit)
  }

  function HighestGeneration(evidence: seq<Record>, key: SourceKey): (highest: nat)
    ensures forall r :: r in evidence && r.key == key ==> r.evidenceGeneration <= highest
  {
    if evidence == [] then 0
    else
      var n := |evidence| - 1;
      assert evidence == evidence[..n] + [evidence[n]];
      var highest := HighestGeneration(evidence[..n], key);
      if evidence[n].key == key && evidence[n].evidenceGeneration >= highest then evidence[n].evidenceGeneration
      else highest
  }

  /** The author of the records one publication creates. */
  datatype Author = Author(
    key: SourceKey, publisher: Id, scope: Id, epoch: nat, sourceGeneration: nat, attempt: Id, publication: Id)

  function NewRecord(entity: Entity, author: Author, claim: Claim, generation: nat): Record {
    Record(author.key, author.publisher, author.scope, author.epoch, author.sourceGeneration, generation,
           author.attempt, author.publication, entity.id, entity.bound, claim, Current)
  }

  datatype Applied = Applied(entity: Entity, error: Option<Error>)

  function EntryOf(entity: Entity, capability: Id): Entry {
    if capability in entity.capabilities then entity.capabilities[capability] else Entry(0, [], None)
  }

  /** The evidence that stays after the author's own live records are superseded. */
  function Displaced(evidence: seq<Record>, key: SourceKey, reason: Id, limit: nat): seq<Record> {
    Trim(MarkRecords(evidence, Mark(LiveOf(key), Superseded, reason)), limit)
  }

  /** No room is left for one more live record. */
  predicate Crowded(evidence: seq<Record>, key: SourceKey, reason: Id, limit: nat) {
    |Filter(Live, Displaced(evidence, key, reason, limit))| >= limit
  }

  /** The entry with a new record appended and the resolution computed anew. */
  function Appended(limit: nat, entry: Entry, record: Record, reason: Id): Entry {
    var evidence := Displaced(entry.evidence, record.key, reason, limit) + [record];
    Entry(entry.generation + 1, evidence, Some(Resolve(record.claim.capability, entry.generation + 1, evidence)))
  }

  function RecordFor(author: Author, entity: Entity, entry: Entry, claim: Claim): Record {
    NewRecord(entity, author, claim, HighestGeneration(entry.evidence, author.key) + 1)
  }

  function ClaimedEntry(limit: nat, author: Author, entity: Entity, entry: Entry, claim: Claim, reason: Id): Entry {
    Appended(limit, entry, RecordFor(author, entity, entry, claim), reason)
  }

  function PutEntry(entity: Entity, capability: Id, entry: Entry): Entity {
    entity.(capabilities := entity.capabilities[capability := entry])
  }

  function ApplyClaim(options: Options, author: Author, entity: Entity, claim: Claim, reason: Id): Applied {
    var c := claim.capability;
    var entry := EntryOf(entity, c);
    if c !in entity.capabilities && |entity.capabilities| >= options.maxCapabilities then
      Applied(entity, Some(ClaimCountExceeded))
    else if Crowded(entry.evidence, author.key, reason, options.maxEvidence) then
      Applied(PutEntry(entity, c,
                       entry.(evidence := Displaced(entry.evidence, author.key, reason, options.maxEvidence))),
              Some(EvidenceLimitExceeded))
    else
      Applied(PutEntry(entity, c, ClaimedEntry(options.maxEvidence, author, entity, entry, claim, reason)), None)
  }

  function ApplyClaims(options: Options, author: Author, entity: Entity, claims: seq<Claim>, reason: Id): Applied
    decreases |claims|
  {
    if claims == [] then Applied(entity, None)
    else
      var first := ApplyClaim(options, author, entity, claims[0], reason);
      if first.error.Some? then first else ApplyClaims(options, author, first.entity, claims[1..], reason)
  }

  /** WithdrawIdentityClaim. */
  function Withdraw(entity: Entity, capability: Id, key: SourceKey, reason: Id): Entity {
    if capability in entity.capabilities then
      entity.(capabilities := entity.capabilities[capability :=
                MarkEntry(capability, entity.capabilities[capability], Mark(LiveOf(key), Superseded, reason))])
    else entity
  }

  // ----- the three publication modes -----

  function Covered(claims: seq<Claim>, coverage: Coverage): seq<Claim> {
    seq(|claims|, i requires 0 <= i < |claims| => claims[i].(coverage := coverage))
  }

  function EditClaim(edit: Edit): Claim {
    var claim := edit.claim.(capability := edit.capability);
    match edit.operation
    case MarkUnsupported => claim.(state := Unsupported)
    case MarkUnknown => claim.(state := Unknown)
    case MarkRevalidationRequired => claim.(state := RevalidationRequired)
    case _ => claim
  }

  /** One edit; `superseded` says that an earlier edit already superseded the source's evidence. */
  function ApplyEdit(options: Options, author: Author, entity: Entity, edit: Edit, reason: Id,
                     superseded: bool): Applied {
    match edit.operation
    case WithdrawClaim => Applied(Withdraw(entity, edit.capability, author.key, reason), None)
    case SupersedeSourceEvidence =>
      Applied(if superseded then entity else MarkAll(entity, Mark(LiveOf(author.key), Superseded, reason)), None)
    case _ => ApplyClaim(options, author, entity, EditClaim(edit), reason)
  }

  function ApplyEdits(options: Options, author: Author, entity: Entity, edits: seq<Edit>, reason: Id,
                      superseded: bool): Applied
    decreases |edits|
  {
    if edits == [] then Applied(entity, None)
    else
      var first := ApplyEdit(options, author, entity, edits[0], reason, superseded);
      if first.error.Some? then first
      else ApplyEdits(options, author, first.entity, edits[1..], reason,
                      superseded || edits[0].operation.SupersedeSourceEvidence?)
  }

  predicate Mentions(claims: seq<Claim>, capability: Id) {
    exists claim :: claim in claims && claim.capability == capability
  }

  /** The capabilities an exclusive full enumeration reports as absent. */
  function AbsentCapabilities(env: Environment, grant: Grant, claims: seq<Claim>,
                              descriptors: seq<Descriptor>): seq<Id> {
    if descriptors == [] then []
    else
      var n := |descriptors| - 1;
      var d := descriptors[n];
      AbsentCapabilities(env, grant, claims, descriptors[..n]) +
      (if d.absenceIsNegative && d.id != 0 && !Mentions(claims, d.id) && env.namespaceOf(d.id) in grant.namespaces
       then [d.id] else [])
  }

  function AbsenceClaim(grant: Grant, request: Request, capability: Id): Claim {
    Claim(capability, Unsupported, Absent,
          if request.claims == [] then grant.strongest else request.claims[0].provenance,
          if request.claims == [] then HardwareEnumeration else request.claims[0].sourceClass,
          ProcessBound, FullEnumeration, 0, 0, request.reason)
  }

  function AbsenceClaims(env: Environment, grant: Grant, request: Request): seq<Claim> {
    if grant.exclusive && request.coverage.FullEnumeration? then
      var ids := AbsentCapabilities(env, grant, request.claims, env.descriptors);
      seq(|ids|, i requires 0 <= i < |ids| => AbsenceClaim(grant, request, ids[i]))
    else []
  }

  /** A full snapshot first withdraws what the identity (and, for an exclusive scope,
      every other process) holds. */
  function ClearForSnapshot(entity: Entity, grant: Grant, request: Request): Entity {
    var cleared := if grant.exclusive then
                     MarkAll(entity, Mark(LiveProcessBoundOfOthers(request.Instance()), Superseded, request.reason))
                   else entity;
    MarkAll(cleared, Mark(LiveOf(request.Key()), Superseded, request.reason))
  }

  function AuthorOf(epoch: nat, request: Request): Author {
    Author(request.Key(), request.publisher, request.scope, epoch, request.sourceGeneration, request.attempt,
           request.publication)
  }

  function ApplyRequest(env: Environment, epoch: nat, grant: Grant, entity: Entity, request: Request): Applied {
    var author := AuthorOf(epoch, request);
    match request.mode
    case FullSnapshot =>
      var first := ApplyClaims(env.options, author, ClearForSnapshot(entity, grant, request),
                               Covered(request.claims, request.coverage), request.reason);
      if first.error.Some? then first
      else ApplyClaims(env.options, author, first.entity, AbsenceClaims(env, grant, request), request.reason)
    case PartialObservation =>
      ApplyClaims(env.options, author, entity, Covered(request.claims, request.coverage), request.reason)
    case Incremental =>
      ApplyEdits(env.options, author, entity, request.edits, request.reason, false)
  }
}
