/** The records Save writes for a registry, and exactly when they are read back. */
module StoredRegistry {
  import opened Values
  import opened Evidence
  import opened RegistryState
  import opened Bytes
  import opened ValueCodec
  import opened StoreRows
  import opened StorePayload
  import opened StoreFile
  import Steps = RegistrySteps

  // ----- spelling -----

  /** The texts of the identifiers, and the codes of the entity kinds. */
  datatype Spelling = Spelling(
    capability: Id -> Text, entity: Id -> Text, namespace: Id -> Text, source: Id -> Text, publisher: Id -> Text,
    scope: Id -> Text, boot: Id -> Text, attempt: Id -> Text, publication: Id -> Text, version: Id -> Text,
    reason: Id -> Text, evidence: EvidenceId -> Text, kind: Id -> nat)

  /** An identifier that is not set is spelled as the empty text. */
  function Optional(spell: Id -> Text, id: Id): Datum { TextDatum(if id == 0 then [] else spell(id)) }

  function SourceClassCode(s: SourceClass): nat {
    match s
    case HardwareEnumeration => 0
    case OperatingSystemApi => 1
    case DriverApi => 2
    case FirmwareManifest => 3
    case VendorSdk => 4
    case DeviceAgent => 5
    case SwitchAgent => 6
    case AdministrativeDeclaration => 7
    case ImportedManifest => 8
    case SyntheticBackend => 9
  }

  function StateCode(s: CapabilityState): nat {
    match s
    case Unknown => 0
    case Supported => 1
    case Unsupported => 2
    case RevalidationRequired => 3
    case Conflicted => 4
  }

  function CurrentnessCode(c: Currentness): nat {
    match c
    case Current => 0
    case AwaitingRevalidation => 1
    case Fenced => 2
    case Superseded => 3
    case EntityGenerationSuperseded => 4
  }

  function ModeMask(modes: set<Mode>): nat {
    (if FullSnapshot in modes then 1 else 0) + (if Incremental in modes then 2 else 0)
    + (if PartialObservation in modes then 4 else 0)
  }

  // ----- the rows -----

  function RowPerItem<T>(row: T -> Row, items: seq<T>): seq<Row> {
    seq(|items|, i requires 0 <= i < |items| => row(items[i]))
  }

  /** WriteClaim. */
  function ClaimRow(sp: Spelling): Record -> Row {
    (r: Record) =>
      [TextDatum(sp.capability(r.claim.capability)), TextDatum(sp.evidence(r.Identity())),
       TextDatum(sp.source(r.key.source)), TextDatum(sp.publisher(r.publisher)), TextDatum(sp.scope(r.scope)),
       TextDatum(sp.boot(r.key.boot)), TextDatum(sp.attempt(r.attempt)), TextDatum(sp.publication(r.publication)),
       NumberDatum(r.epoch), NumberDatum(r.sourceGeneration), NumberDatum(r.evidenceGeneration),
       NumberDatum(r.claim.provenance), NumberDatum(SourceClassCode(r.claim.sourceClass)),
       NumberDatum(if r.claim.durability.Durable? then 1 else 0),
       NumberDatum(if r.claim.coverage.FullEnumeration? then 1 else 0),
       NumberDatum(StateCode(r.claim.state)), NumberDatum(CurrentnessCode(r.currentness)), ValueDatum(r.claim.value),
       Optional(sp.version, r.claim.firmware), Optional(sp.version, r.claim.driver),
       Optional(sp.reason, r.claim.reason)]
  }

  function CapabilityRow(sp: Spelling): ((Id, nat)) -> Row {
    (p: (Id, nat)) => [TextDatum(sp.capability(p.0)), NumberDatum(p.1)]
  }

  function FloorRow(sp: Spelling): ((SourceKey, nat)) -> Row {
    (p: (SourceKey, nat)) => [TextDatum(sp.source(p.0.source)), TextDatum(sp.boot(p.0.boot)), NumberDatum(p.1)]
  }

  /** WriteEntity, without the history of retired generations. */
  function EntityRow(sp: Spelling): Steps.StoredEntity -> Row {
    (e: Steps.StoredEntity) =>
      [TextDatum(sp.entity(e.id)), NumberDatum(e.current), NumberDatum(e.bound), FlagDatum(e.hasSet),
       NumberDatum(e.setGeneration), FlagDatum(e.invalidated), Optional(sp.reason, e.reason),
       RowsDatum(RowPerItem(CapabilityRow(sp), e.capabilities)), RowsDatum(RowPerItem(ClaimRow(sp), e.claims)),
       RowsDatum(RowPerItem(FloorRow(sp), e.floors)), RowsDatum([])]
  }

  function TextRow(spell: Id -> Text): Id -> Row { (id: Id) => [TextDatum(spell(id))] }

  function KindRow(sp: Spelling): Id -> Row { (id: Id) => [NumberDatum(sp.kind(id))] }

  /** WriteGrant, without the description. */
  function GrantRow(sp: Spelling): Grant -> Row {
    (g: Grant) =>
      [TextDatum(sp.scope(g.scope)), RowsDatum(RowPerItem(KindRow(sp), g.entityKinds)),
       RowsDatum(RowPerItem(TextRow(sp.namespace), g.namespaces)), NumberDatum(ModeMask(g.modes)),
       FlagDatum(g.exclusive),
       FlagDatum(g.mayPublishDurable), NumberDatum(g.strongest), NumberDatum(g.maxClaims), TextDatum([]),
       RowsDatum(RowPerItem(TextRow(sp.publisher), g.allowedPublishers))]
  }

  function FenceRow(sp: Spelling): Fence -> Row {
    (f: Fence) => [TextDatum(sp.boot(f.boot)), Optional(sp.publisher, f.publisher), Optional(sp.reason, f.reason)]
  }

  function RegistrationRow(sp: Spelling): Steps.StoredRegistration -> Row {
    (r: Steps.StoredRegistration) =>
      [TextDatum(sp.publisher(r.publisher)), TextDatum(sp.boot(r.boot)), TextDatum(sp.scope(r.scope))]
  }

  /** The store of a saved registry. */
  function RowsOf(sp: Spelling, saved: Steps.Payload): StorePayload.Payload {
    StorePayload.Payload(saved.epoch, saved.registryGeneration, RowPerItem(GrantRow(sp), saved.authorities),
            RowPerItem(FenceRow(sp), saved.fences), RowPerItem(RegistrationRow(sp), saved.registrations),
            RowPerItem(EntityRow(sp), saved.entities))
  }

  // ----- what identifiers and counters are -----

  predicate IsText(text: Text, limit: nat, rule: Text -> bool) { |text| <= limit && ControlFree(text) && rule(text) }

  predicate IsOptional(spell: Id -> Text, id: Id, limit: nat, rule: Text -> bool) {
    id == 0 || IsText(spell(id), limit, rule)
  }

  predicate RecordSpelled(g: Grammar, sp: Spelling, r: Record) {
    && IsText(sp.capability(r.claim.capability), 192, g.capability)
    && IsText(sp.evidence(r.Identity()), 32, EvidenceIdRule)
    && IsText(sp.source(r.key.source), 96, NameRule) && IsText(sp.publisher(r.publisher), 96, NameRule)
    && IsText(sp.scope(r.scope), 96, NameRule) && IsText(sp.boot(r.key.boot), 64, BootRule)
    && IsText(sp.attempt(r.attempt), 96, AttemptRule) && IsText(sp.publication(r.publication), 96, AttemptRule)
    && r.epoch < TWO_TO_64 && r.sourceGeneration < TWO_TO_64 && r.evidenceGeneration < TWO_TO_64
    && IsOptional(sp.version, r.claim.firmware, 64, VersionRule)
    && IsOptional(sp.version, r.claim.driver, 64, VersionRule)
    && IsOptional(sp.reason, r.claim.reason, 192, ReasonRule)
  }

  predicate EntitySpelled(g: Grammar, sp: Spelling, e: Steps.StoredEntity) {
    && IsText(sp.entity(e.id), 160, g.entity) && 1 <= e.current < TWO_TO_64 && e.bound < TWO_TO_64
    && e.setGeneration < TWO_TO_64 && IsOptional(sp.reason, e.reason, 192, ReasonRule)
    && (forall p :: p in e.capabilities ==> IsText(sp.capability(p.0), 192, g.capability) && p.1 < TWO_TO_64)
    && (forall p :: p in e.floors ==>
          IsText(sp.source(p.0.source), 96, NameRule) && IsText(sp.boot(p.0.boot), 64, BootRule) && p.1 < TWO_TO_64)
    && (forall r :: r in e.claims ==> RecordSpelled(g, sp, r))
  }

  predicate GrantSpelled(g: Grammar, sp: Spelling, grant: Grant) {
    && IsText(sp.scope(grant.scope), 96, NameRule)
    && (forall k :: k in grant.entityKinds ==> 1 <= sp.kind(k) <= 11)
    && (forall n :: n in grant.namespaces ==> IsText(sp.namespace(n), 192, g.namespace))
    && (forall p :: p in grant.allowedPublishers ==> IsText(sp.publisher(p), 96, NameRule))
    && grant.maxClaims < TWO_TO_32
  }

  /** Identifiers are texts of their grammar, counters have 64 bits, and the capabilities of an entity are
      listed in the order of their texts, as Save sorts them. */
  ghost predicate Spelled(g: Grammar, sp: Spelling, saved: Steps.Payload) {
    && saved.epoch < TWO_TO_64 && saved.registryGeneration < TWO_TO_64
    && (forall x :: x in saved.authorities ==> GrantSpelled(g, sp, x))
    && (forall x :: x in saved.fences ==>
          && IsText(sp.boot(x.boot), 64, BootRule) && IsOptional(sp.publisher, x.publisher, 96, NameRule)
          && IsOptional(sp.reason, x.reason, 192, ReasonRule))
    && (forall x :: x in saved.registrations ==>
          && IsText(sp.publisher(x.publisher), 96, NameRule) && IsText(sp.boot(x.boot), 64, BootRule)
          && IsText(sp.scope(x.scope), 96, NameRule))
    && (forall x :: x in saved.entities ==>
          EntitySpelled(g, sp, x) && Orderings.Increasing(RowLess, RowPerItem(CapabilityRow(sp), x.capabilities)))
  }

  // ----- the bounds -----

  predicate GrantInBounds(grant: Grant) {
    && |grant.entityKinds| <= 16 && |grant.namespaces| <= 64 && |grant.allowedPublishers| <= 4096
    && grant.maxClaims <= 4096
  }

  /** The entity's lists are short enough and every claimed value is one the codec carries. */
  predicate EntityInBounds(e: Steps.StoredEntity) {
    && |e.capabilities| <= 4096 && |e.claims| <= 65536 && |e.floors| <= 65536
    && forall r :: r in e.claims ==> Encodable(r.claim.value)
  }

  predicate InBounds(saved: Steps.Payload) {
    && |saved.authorities| <= 4096 && |saved.fences| <= 65536
    && |saved.registrations| <= 4096 && |saved.entities| <= 1_000_000
    && (forall x :: x in saved.authorities ==> GrantInBounds(x))
    && (forall x :: x in saved.entities ==> EntityInBounds(x))
  }

  // ----- each row -----

  lemma ItemsFit<T>(shapes: seq<Shape>, row: T -> Row, items: seq<T>)
    ensures FitsRows(shapes, RowPerItem(row, items)) <==> forall x :: x in items ==> FitsRow(shapes, row(x))
  {
    hide FitsRow, FitsRows;
    var rows := RowPerItem(row, items);
    FitsEach(shapes, rows);
    if FitsRows(shapes, rows) {
      forall x | x in items ensures FitsRow(shapes, row(x)) {
        var i :| 0 <= i < |items| && items[i] == x;
        assert rows[i] in rows;
      }
    }
  }

  lemma TextFits(text: Text, limit: nat, rule: Text -> bool)
    requires limit < TWO_TO_32
    ensures FitsDatum(Identifier(limit, rule), TextDatum(text)) <==> IsText(text, limit, rule)
  {
  }

  lemma OptionalFits(spell: Id -> Text, id: Id, limit: nat, rule: Text -> bool)
    requires limit < TWO_TO_32 && IsOptional(spell, id, limit, rule)
    ensures FitsDatum(OptionalIdentifier(limit, rule), Optional(spell, id))
  {
  }

  lemma CounterFits(n: nat)
    ensures FitsDatum(Counter(), NumberDatum(n)) <==> n < TWO_TO_64
  {
    Powers();
  }

  lemma ChoiceFits(n: nat, count: nat)
    requires n < count <= 256
    ensures FitsDatum(Choice(count), NumberDatum(n))
  {
    Powers();
  }

  lemma ClaimTextsFit(g: Grammar, sp: Spelling, r: Record)
    requires RecordSpelled(g, sp, r)
    ensures forall i :: 0 <= i < 8 ==> FitsDatum(ClaimShape(g)[i], ClaimRow(sp)(r)[i])
  {
    hide FitsDatum, IsText, IsOptional, Optional, Counter, Choice;
    TextFits(sp.capability(r.claim.capability), 192, g.capability);
    TextFits(sp.evidence(r.Identity()), 32, EvidenceIdRule);
    TextFits(sp.source(r.key.source), 96, NameRule);
    TextFits(sp.publisher(r.publisher), 96, NameRule);
    TextFits(sp.scope(r.scope), 96, NameRule);
    TextFits(sp.boot(r.key.boot), 64, BootRule);
    TextFits(sp.attempt(r.attempt), 96, AttemptRule);
    TextFits(sp.publication(r.publication), 96, AttemptRule);
  }

  lemma ClaimNumbersFit(g: Grammar, sp: Spelling, r: Record)
    requires RecordSpelled(g, sp, r)
    ensures forall i :: 8 <= i < 17 ==> FitsDatum(ClaimShape(g)[i], ClaimRow(sp)(r)[i])
  {
    hide FitsDatum, IsText, IsOptional, Optional, Counter, Choice;
    CounterFits(r.epoch);
    CounterFits(r.sourceGeneration);
    CounterFits(r.evidenceGeneration);
    ChoiceFits(r.claim.provenance, 7);
    ChoiceFits(SourceClassCode(r.claim.sourceClass), 10);
    ChoiceFits(if r.claim.durability.Durable? then 1 else 0, 2);
    ChoiceFits(if r.claim.coverage.FullEnumeration? then 1 else 0, 2);
    ChoiceFits(StateCode(r.claim.state), 5);
    ChoiceFits(CurrentnessCode(r.currentness), 5);
  }

  lemma ClaimTokensFit(g: Grammar, sp: Spelling, r: Record)
    requires RecordSpelled(g, sp, r)
    ensures forall i :: 18 <= i < 21 ==> FitsDatum(ClaimShape(g)[i], ClaimRow(sp)(r)[i])
  {
    hide FitsDatum, IsText, IsOptional, Optional, Counter, Choice;
    OptionalFits(sp.version, r.claim.firmware, 64, VersionRule);
    OptionalFits(sp.version, r.claim.driver, 64, VersionRule);
    OptionalFits(sp.reason, r.claim.reason, 192, ReasonRule);
  }

  lemma ClaimFitsExactly(g: Grammar, sp: Spelling, r: Record)
    requires RecordSpelled(g, sp, r)
    ensures FitsRow(ClaimShape(g), ClaimRow(sp)(r)) <==> Encodable(r.claim.value)
  {
    hide FitsDatum, RecordSpelled, Encodable, Optional, Counter, Choice;
    FitsEachField(ClaimShape(g), ClaimRow(sp)(r));
    ClaimTextsFit(g, sp, r);
    ClaimNumbersFit(g, sp, r);
    ClaimTokensFit(g, sp, r);
    ValueFits(r.claim.value);
    assert ClaimShape(g)[17] == ValueField && ClaimRow(sp)(r)[17] == ValueDatum(r.claim.value);
  }

  lemma ValueFits(value: CapabilityValue)
    ensures FitsDatum(ValueField, ValueDatum(value)) <==> Encodable(value)
  {
    hide Encodable;
  }

  lemma CapabilityFits(g: Grammar, sp: Spelling, p: (Id, nat))
    requires IsText(sp.capability(p.0), 192, g.capability) && p.1 < TWO_TO_64
    ensures FitsRow([Identifier(192, g.capability), Counter()], CapabilityRow(sp)(p))
  {
    hide FitsDatum, IsText, Counter;
    FitsEachField([Identifier(192, g.capability), Counter()], CapabilityRow(sp)(p));
    TextFits(sp.capability(p.0), 192, g.capability);
    CounterFits(p.1);
  }

  lemma FloorFits(sp: Spelling, p: (SourceKey, nat))
    requires IsText(sp.source(p.0.source), 96, NameRule) && IsText(sp.boot(p.0.boot), 64, BootRule) && p.1 < TWO_TO_64
    ensures FitsRow([Name(), Boot(), Counter()], FloorRow(sp)(p))
  {
    hide FitsDatum, IsText, Counter;
    FitsEachField([Name(), Boot(), Counter()], FloorRow(sp)(p));
    TextFits(sp.source(p.0.source), 96, NameRule);
    TextFits(sp.boot(p.0.boot), 64, BootRule);
    CounterFits(p.1);
  }

  lemma FlagFits(b: bool)
    ensures FitsDatum(Flag, FlagDatum(b))
  {
  }

  lemma RowsFieldFits(limit: nat, shapes: seq<Shape>, rows: seq<Row>)
    requires limit < TWO_TO_32
    ensures FitsDatum(Rows(limit, shapes), RowsDatum(rows)) <==> |rows| <= limit && FitsRows(shapes, rows)
    ensures FitsDatum(SortedRows(limit, shapes), RowsDatum(rows)) <==>
            |rows| <= limit && FitsRows(shapes, rows) && Orderings.Increasing(RowLess, rows)
  {
    hide FitsRows;
  }

  lemma NumberFits(n: nat, width: nat, low: nat, high: nat)
    requires n < Power256(width)
    ensures FitsDatum(Number(width, low, high), NumberDatum(n)) <==> low <= n <= high
  {
  }

  lemma EntityFitsExactly(g: Grammar, sp: Spelling, e: Steps.StoredEntity)
    requires EntitySpelled(g, sp, e)
    requires Orderings.Increasing(RowLess, RowPerItem(CapabilityRow(sp), e.capabilities))
    ensures FitsRow(EntityShape(g), EntityRow(sp)(e)) <==> EntityInBounds(e)
  {
    hide FitsDatum, IsText, IsOptional, Encodable, Optional, Counter, Choice, FitsRow, FitsRows, ClaimShape,
      CapabilityRow, ClaimRow, FloorRow, Power256;
    var shapes, row := EntityShape(g), EntityRow(sp)(e);
    FitsEachField(shapes, row);
    EntityListsFit(g, sp, e);
    TextFits(sp.entity(e.id), 160, g.entity);
    Powers();
    NumberFits(e.current, 8, 1, 0xFFFF_FFFF_FFFF_FFFF);
    CounterFits(e.bound);
    CounterFits(e.setGeneration);
    FlagFits(e.hasSet);
    FlagFits(e.invalidated);
    OptionalFits(sp.reason, e.reason, 192, ReasonRule);
  }

  lemma EntityListsFit(g: Grammar, sp: Spelling, e: Steps.StoredEntity)
    requires EntitySpelled(g, sp, e)
    requires Orderings.Increasing(RowLess, RowPerItem(CapabilityRow(sp), e.capabilities))
    ensures var row := EntityRow(sp)(e);
            && (FitsDatum(EntityShape(g)[7], row[7]) <==> |e.capabilities| <= 4096)
            && (FitsDatum(EntityShape(g)[8], row[8]) <==>
                  |e.claims| <= 65536 && forall r :: r in e.claims ==> Encodable(r.claim.value))
            && (FitsDatum(EntityShape(g)[9], row[9]) <==> |e.floors| <= 65536)
            && FitsDatum(EntityShape(g)[10], row[10])
  {
    hide FitsDatum, IsText, Encodable, FitsRow, FitsRows, ClaimShape, ClaimRow, CapabilityRow, FloorRow, RecordSpelled,
      IsOptional;
    var names := [Identifier(192, g.capability), Counter()];
    RowsFieldFits(4096, names, RowPerItem(CapabilityRow(sp), e.capabilities));
    ItemsFit(names, CapabilityRow(sp), e.capabilities);
    forall p | p in e.capabilities ensures FitsRow(names, CapabilityRow(sp)(p)) {
      CapabilityFits(g, sp, p);
    }
    RowsFieldFits(65536, ClaimShape(g), RowPerItem(ClaimRow(sp), e.claims));
    ItemsFit(ClaimShape(g), ClaimRow(sp), e.claims);
    forall r | r in e.claims ensures FitsRow(ClaimShape(g), ClaimRow(sp)(r)) <==> Encodable(r.claim.value) {
      ClaimFitsExactly(g, sp, r);
    }
    RowsFieldFits(65536, [Name(), Boot(), Counter()], RowPerItem(FloorRow(sp), e.floors));
    ItemsFit([Name(), Boot(), Counter()], FloorRow(sp), e.floors);
    forall p | p in e.floors ensures FitsRow([Name(), Boot(), Counter()], FloorRow(sp)(p)) {
      FloorFits(sp, p);
    }
    var history := [Counter(), Counter(), Raw(32), Counter(), Counter(), Counter(), Reason()];
    RowsFieldFits(8, history, []);
    FitsEach(history, []);
  }

  lemma OneText(spell: Id -> Text, id: Id, limit: nat, rule: Text -> bool)
    requires limit < TWO_TO_32 && IsText(spell(id), limit, rule)
    ensures FitsRow([Identifier(limit, rule)], TextRow(spell)(id))
  {
    hide FitsDatum, IsText;
    FitsEachField([Identifier(limit, rule)], TextRow(spell)(id));
    TextFits(spell(id), limit, rule);
  }

  lemma OneKind(sp: Spelling, id: Id)
    requires 1 <= sp.kind(id) <= 11
    ensures FitsRow([Number(1, 1, 11)], KindRow(sp)(id))
  {
    hide FitsDatum, Power256;
    Powers();
    FitsEachField([Number(1, 1, 11)], KindRow(sp)(id));
    NumberFits(sp.kind(id), 1, 1, 11);
  }

  lemma GrantListsFit(g: Grammar, sp: Spelling, grant: Grant)
    requires GrantSpelled(g, sp, grant)
    ensures var row := GrantRow(sp)(grant);
            && (FitsDatum(GrantShape(g)[1], row[1]) <==> |grant.entityKinds| <= 16)
            && (FitsDatum(GrantShape(g)[2], row[2]) <==> |grant.namespaces| <= 64)
            && (FitsDatum(GrantShape(g)[9], row[9]) <==> |grant.allowedPublishers| <= 4096)
  {
    hide FitsDatum, IsText, FitsRow, FitsRows, TextRow, KindRow;
    RowsFieldFits(16, [Number(1, 1, 11)], RowPerItem(KindRow(sp), grant.entityKinds));
    ItemsFit([Number(1, 1, 11)], KindRow(sp), grant.entityKinds);
    forall k | k in grant.entityKinds ensures FitsRow([Number(1, 1, 11)], KindRow(sp)(k)) {
      OneKind(sp, k);
    }
    RowsFieldFits(64, [Identifier(192, g.namespace)], RowPerItem(TextRow(sp.namespace), grant.namespaces));
    ItemsFit([Identifier(192, g.namespace)], TextRow(sp.namespace), grant.namespaces);
    forall n | n in grant.namespaces ensures FitsRow([Identifier(192, g.namespace)], TextRow(sp.namespace)(n)) {
      OneText(sp.namespace, n, 192, g.namespace);
    }
    RowsFieldFits(4096, [Name()], RowPerItem(TextRow(sp.publisher), grant.allowedPublishers));
    ItemsFit([Name()], TextRow(sp.publisher), grant.allowedPublishers);
    forall p | p in grant.allowedPublishers ensures FitsRow([Name()], TextRow(sp.publisher)(p)) {
      OneText(sp.publisher, p, 96, NameRule);
    }
  }

  lemma GrantFitsExactly(g: Grammar, sp: Spelling, grant: Grant)
    requires GrantSpelled(g, sp, grant)
    ensures FitsRow(GrantShape(g), GrantRow(sp)(grant)) <==> GrantInBounds(grant)
  {
    hide FitsDatum, IsText, FitsRow, FitsRows, TextRow, KindRow, Choice, Power256, Optional;
    var shapes, row := GrantShape(g), GrantRow(sp)(grant);
    FitsEachField(shapes, row);
    GrantListsFit(g, sp, grant);
    TextFits(sp.scope(grant.scope), 96, NameRule);
    Powers();
    NumberFits(ModeMask(grant.modes), 1, 0, 255);
    FlagFits(grant.exclusive);
    FlagFits(grant.mayPublishDurable);
    ChoiceFits(grant.strongest, 7);
    NumberFits(grant.maxClaims, 4, 0, 4096);
    OptionalFits(sp.reason, 0, 192, ReasonRule);
    NotSet(sp.reason);
    assert shapes[0] == Name() && shapes[8] == Reason() && row[8] == Optional(sp.reason, 0);
    assert FitsDatum(shapes[0], row[0]) && FitsDatum(shapes[8], row[8]);
    assert FitsDatum(shapes[3], row[3]) && FitsDatum(shapes[4], row[4]) && FitsDatum(shapes[5], row[5]);
    assert FitsDatum(shapes[6], row[6]);
    assert FitsDatum(shapes[7], row[7]) <==> grant.maxClaims <= 4096;
  }

  lemma NotSet(spell: Id -> Text)
    ensures Optional(spell, 0) == TextDatum([])
  {
  }

  lemma FenceFits(sp: Spelling, f: Fence)
    requires IsText(sp.boot(f.boot), 64, BootRule) && IsOptional(sp.publisher, f.publisher, 96, NameRule)
    requires IsOptional(sp.reason, f.reason, 192, ReasonRule)
    ensures FitsRow(FenceShape(), FenceRow(sp)(f))
  {
    hide FitsDatum, IsText, IsOptional, Optional;
    FitsEachField(FenceShape(), FenceRow(sp)(f));
    TextFits(sp.boot(f.boot), 64, BootRule);
    OptionalFits(sp.publisher, f.publisher, 96, NameRule);
    OptionalFits(sp.reason, f.reason, 192, ReasonRule);
  }

  lemma RegistrationFits(sp: Spelling, r: Steps.StoredRegistration)
    requires IsText(sp.publisher(r.publisher), 96, NameRule) && IsText(sp.boot(r.boot), 64, BootRule)
    requires IsText(sp.scope(r.scope), 96, NameRule)
    ensures FitsRow(RegistrationShape(), RegistrationRow(sp)(r))
  {
    hide FitsDatum, IsText;
    FitsEachField(RegistrationShape(), RegistrationRow(sp)(r));
    TextFits(sp.publisher(r.publisher), 96, NameRule);
    TextFits(sp.boot(r.boot), 64, BootRule);
    TextFits(sp.scope(r.scope), 96, NameRule);
  }

  // ----- the store -----

  /** The store of a saved registry is in the decoder's bounds exactly when its lists are short enough
      and every live claim's value is one the codec carries. */
  lemma SavedFitsExactly(g: Grammar, sp: Spelling, saved: Steps.Payload)
    requires Spelled(g, sp, saved)
    ensures Fits(g, RowsOf(sp, saved)) <==> InBounds(saved)
  {
    hide FitsRow, FitsRows, IsText, IsOptional, GrantSpelled, EntitySpelled, GrantInBounds, EntityInBounds, GrantShape,
      FenceShape, RegistrationShape, EntityShape, GrantRow, FenceRow, RegistrationRow, EntityRow, CapabilityRow;
    ItemsFit(GrantShape(g), GrantRow(sp), saved.authorities);
    forall x | x in saved.authorities ensures FitsRow(GrantShape(g), GrantRow(sp)(x)) <==> GrantInBounds(x) {
      GrantFitsExactly(g, sp, x);
    }
    ItemsFit(FenceShape(), FenceRow(sp), saved.fences);
    forall x | x in saved.fences ensures FitsRow(FenceShape(), FenceRow(sp)(x)) {
      FenceFits(sp, x);
    }
    ItemsFit(RegistrationShape(), RegistrationRow(sp), saved.registrations);
    forall x | x in saved.registrations ensures FitsRow(RegistrationShape(), RegistrationRow(sp)(x)) {
      RegistrationFits(sp, x);
    }
    ItemsFit(EntityShape(g), EntityRow(sp), saved.entities);
    forall x | x in saved.entities ensures FitsRow(EntityShape(g), EntityRow(sp)(x)) <==> EntityInBounds(x) {
      EntityFitsExactly(g, sp, x);
    }
  }

  /** A saved registry that was written is read back exactly when every live claim's value is one the
      codec carries, the lists are within the decoder's bounds, and the whole file is within the bound
      that the writer puts on the payload alone. */
  lemma SavedIsReadExactly(g: Grammar, sp: Spelling, saved: Steps.Payload)
    requires Spelled(g, sp, saved) && WriteFile(g, RowsOf(sp, saved)).Ok?
    ensures Encode(g, RowsOf(sp, saved)).Ok?
    ensures ReadFile(g, WriteFile(g, RowsOf(sp, saved)).value) == Ok(RowsOf(sp, saved)) <==>
            InBounds(saved) && |Encode(g, RowsOf(sp, saved)).value| <= MAX_PERSISTENCE_BYTES - HEADER_BYTES
  {
    hide Spelled, InBounds, Fits, WriteFile, ReadFile, Encode, RowsOf;
    SavedFitsExactly(g, sp, saved);
    FileRoundTripsExactly(g, RowsOf(sp, saved));
  }
}
