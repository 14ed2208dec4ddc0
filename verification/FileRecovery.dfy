/** From a registry to the bytes of its store file and back: what the rows of a store mean, and that a
    registry loaded from the file it was saved to is the one that was saved. */
module FileRecovery {
  import opened Values
  import opened Evidence
  import opened RegistryState
  import opened RegistryInvariant
  import opened EvidenceInvariant
  import opened StoreRows
  import opened StorePayload
  import opened StoreFile
  import opened StoredRegistry

  // ----- reading the fields of a row -----

  function TextAt(row: Row, i: nat): Text { if i < |row| && row[i].TextDatum? then row[i].text else [] }

  function NumberAt(row: Row, i: nat): nat { if i < |row| && row[i].NumberDatum? then row[i].number else 0 }

  predicate FlagAt(row: Row, i: nat) { i < |row| && row[i].FlagDatum? && row[i].flag }

  function RowsAt(row: Row, i: nat): seq<Row> { if i < |row| && row[i].RowsDatum? then row[i].rows else [] }

  function ValueAt(row: Row, i: nat): CapabilityValue {
    if i < |row| && row[i].ValueDatum? then row[i].value else Absent
  }

  /** How the texts of identifiers are parsed; the empty text is the unset identifier. */
  datatype Parsing = Parsing(
    capability: Text -> Id, entity: Text -> Id, namespace: Text -> Id, source: Text -> Id, publisher: Text -> Id,
    scope: Text -> Id, boot: Text -> Id, attempt: Text -> Id, publication: Text -> Id, version: Text -> Id,
    reason: Text -> Id, kind: nat -> Id)

  function ParseOptional(parse: Text -> Id, text: Text): Id { if |text| == 0 then 0 else parse(text) }

  const SOURCE_CLASSES: seq<SourceClass> := [
    HardwareEnumeration, OperatingSystemApi, DriverApi, FirmwareManifest, VendorSdk, DeviceAgent, SwitchAgent,
    AdministrativeDeclaration, ImportedManifest, SyntheticBackend]

  const STATES: seq<CapabilityState> := [Unknown, Supported, Unsupported, RevalidationRequired, Conflicted]

  const CURRENTNESS: seq<Currentness> := [
    Current, AwaitingRevalidation, Fenced, Superseded, EntityGenerationSuperseded]

  function SourceClassAt(row: Row, i: nat): SourceClass {
    if NumberAt(row, i) < 10 then SOURCE_CLASSES[NumberAt(row, i)] else HardwareEnumeration
  }

  function StateAt(row: Row, i: nat): CapabilityState {
    if NumberAt(row, i) < 5 then STATES[NumberAt(row, i)] else Unknown
  }

  function CurrentnessAt(row: Row, i: nat): Currentness {
    if NumberAt(row, i) < 5 then CURRENTNESS[NumberAt(row, i)] else Current
  }

  function RankAt(row: Row, i: nat): Rank { if NumberAt(row, i) < 7 then NumberAt(row, i) else 0 }

  function ReadClaim(p: Parsing, id: Id, bound: nat): Row -> Record {
    (row: Row) =>
      Record(SourceKey(p.source(TextAt(row, 2)), p.boot(TextAt(row, 5))), p.publisher(TextAt(row, 3)),
             p.scope(TextAt(row, 4)), NumberAt(row, 8), NumberAt(row, 9), NumberAt(row, 10), p.attempt(TextAt(row, 6)),
             p.publication(TextAt(row, 7)), id, bound,
             Claim(p.capability(TextAt(row, 0)), StateAt(row, 15), ValueAt(row, 17), RankAt(row, 11),
                   SourceClassAt(row, 12), if NumberAt(row, 13) == 1 then Durable else ProcessBound,
                   if NumberAt(row, 14) == 1 then FullEnumeration else Partial,
                   ParseOptional(p.version, TextAt(row, 18)), ParseOptional(p.version, TextAt(row, 19)),
                   ParseOptional(p.reason, TextAt(row, 20))),
             CurrentnessAt(row, 16))
  }

  function ReadCapability(p: Parsing): Row -> (Id, nat) {
    (row: Row) => (p.capability(TextAt(row, 0)), NumberAt(row, 1))
  }

  function ReadFloor(p: Parsing): Row -> (SourceKey, nat) {
    (row: Row) => (SourceKey(p.source(TextAt(row, 0)), p.boot(TextAt(row, 1))), NumberAt(row, 2))
  }

  function Each<S, T>(read: S -> T, items: seq<S>): seq<T> {
    seq(|items|, i requires 0 <= i < |items| => read(items[i]))
  }

  /** A generation of zero in the bound field stands for the current one. */
  function ReadEntity(p: Parsing): Row -> Steps.StoredEntity {
    (row: Row) =>
      var id := p.entity(TextAt(row, 0));
      Steps.StoredEntity(id, NumberAt(row, 1), NumberAt(row, 2), FlagAt(row, 3), NumberAt(row, 4), FlagAt(row, 5),
                         ParseOptional(p.reason, TextAt(row, 6)), Each(ReadCapability(p), RowsAt(row, 7)),
                         Each(ReadClaim(p, id, NumberAt(row, 2)), RowsAt(row, 8)), Each(ReadFloor(p), RowsAt(row, 9)))
  }

  function ModesOf(mask: nat): set<Mode> {
    (if mask % 2 == 1 then {FullSnapshot} else {}) + (if mask / 2 % 2 == 1 then {Incremental} else {})
    + (if mask / 4 % 2 == 1 then {PartialObservation} else {})
  }

  function ReadName(parse: Text -> Id): Row -> Id { (row: Row) => parse(TextAt(row, 0)) }

  function ReadKind(p: Parsing): Row -> Id { (row: Row) => p.kind(NumberAt(row, 0)) }

  function ReadGrant(p: Parsing): Row -> Grant {
    (row: Row) =>
      Grant(p.scope(TextAt(row, 0)), Each(ReadKind(p), RowsAt(row, 1)), Each(ReadName(p.namespace), RowsAt(row, 2)),
            ModesOf(NumberAt(row, 3)), FlagAt(row, 4), FlagAt(row, 5), RankAt(row, 6),
            Each(ReadName(p.publisher), RowsAt(row, 9)), NumberAt(row, 7))
  }

  function ReadFence(p: Parsing): Row -> Fence {
    (row: Row) =>
      Fence(p.boot(TextAt(row, 0)), ParseOptional(p.publisher, TextAt(row, 1)), ParseOptional(p.reason, TextAt(row, 2)))
  }

  function ReadRegistration(p: Parsing): Row -> Steps.StoredRegistration {
    (row: Row) =>
      Steps.StoredRegistration(p.publisher(TextAt(row, 0)), p.boot(TextAt(row, 1)), p.scope(TextAt(row, 2)))
  }

  /** What Load is given of a store that was read. */
  function Meaning(p: Parsing, rows: StorePayload.Payload): Steps.Payload {
    Steps.Payload(rows.epoch, rows.registryGeneration, Each(ReadGrant(p), rows.authorities),
                  Each(ReadFence(p), rows.fences), Each(ReadRegistration(p), rows.registrations),
                  Each(ReadEntity(p), rows.entities))
  }

  // ----- parsing undoes spelling -----

  /** Every identifier is parsed from its text, and no identifier that is set has the empty text. */
  ghost predicate Undoes(p: Parsing, sp: Spelling) {
    && Inverts(p.capability, sp.capability) && Inverts(p.entity, sp.entity) && Inverts(p.namespace, sp.namespace)
    && Inverts(p.source, sp.source) && Inverts(p.publisher, sp.publisher) && Inverts(p.scope, sp.scope)
    && Inverts(p.boot, sp.boot) && Inverts(p.attempt, sp.attempt) && Inverts(p.publication, sp.publication)
    && Inverts(p.version, sp.version) && Inverts(p.reason, sp.reason)
    && (forall id {:trigger sp.kind(id)} :: p.kind(sp.kind(id)) == id)
    && SpellsSet(sp.publisher) && SpellsSet(sp.version) && SpellsSet(sp.reason)
  }

  ghost predicate Inverts(parse: Text -> Id, spell: Id -> Text) {
    forall id {:trigger spell(id)} :: parse(spell(id)) == id
  }

  ghost predicate SpellsSet(spell: Id -> Text) {
    forall id :: id != 0 ==> spell(id) != []
  }

  /** The claims of a stored entity are about it, at its generation. */
  ghost predicate OwnClaims(e: Steps.StoredEntity) {
    forall r :: r in e.claims ==> r.entity == e.id && r.entityGeneration == e.bound
  }

  lemma ClaimSubject(sp: Spelling, r: Record)
    ensures var row := ClaimRow(sp)(r);
            && TextAt(row, 0) == sp.capability(r.claim.capability) && TextAt(row, 2) == sp.source(r.key.source)
            && TextAt(row, 3) == sp.publisher(r.publisher) && TextAt(row, 4) == sp.scope(r.scope)
  {
  }

  lemma ClaimOrigin(sp: Spelling, r: Record)
    ensures var row := ClaimRow(sp)(r);
            && TextAt(row, 5) == sp.boot(r.key.boot) && TextAt(row, 6) == sp.attempt(r.attempt)
            && TextAt(row, 7) == sp.publication(r.publication)
  {
  }

  lemma ClaimVersions(sp: Spelling, r: Record)
    ensures var row := ClaimRow(sp)(r);
            && TextAt(row, 18) == (if r.claim.firmware == 0 then [] else sp.version(r.claim.firmware))
            && TextAt(row, 19) == (if r.claim.driver == 0 then [] else sp.version(r.claim.driver))
            && TextAt(row, 20) == (if r.claim.reason == 0 then [] else sp.reason(r.claim.reason))
  {
  }

  lemma ClaimNumbers(sp: Spelling, r: Record)
    ensures var row := ClaimRow(sp)(r);
            && NumberAt(row, 8) == r.epoch && NumberAt(row, 9) == r.sourceGeneration
            && NumberAt(row, 10) == r.evidenceGeneration && NumberAt(row, 11) == r.claim.provenance
            && SourceClassAt(row, 12) == r.claim.sourceClass
            && NumberAt(row, 13) == (if r.claim.durability.Durable? then 1 else 0)
            && NumberAt(row, 14) == (if r.claim.coverage.FullEnumeration? then 1 else 0)
            && StateAt(row, 15) == r.claim.state && CurrentnessAt(row, 16) == r.currentness
            && ValueAt(row, 17) == r.claim.value
  {
    hide SourceClassAt, StateAt, CurrentnessAt, StateCode, CurrentnessCode, SourceClassCode;
    var row := ClaimRow(sp)(r);
    SourceClassIsRead(row, 12, r.claim.sourceClass);
    StateIsRead(row, 15, r.claim.state);
    CurrentnessIsRead(row, 16, r.currentness);
  }

  lemma OptionalIsRead(parse: Text -> Id, spell: Id -> Text, id: Id)
    requires Inverts(parse, spell) && SpellsSet(spell)
    ensures ParseOptional(parse, if id == 0 then [] else spell(id)) == id
  {
  }

  lemma ClaimIsRead(p: Parsing, sp: Spelling, id: Id, bound: nat, r: Record)
    requires Undoes(p, sp) && r.entity == id && r.entityGeneration == bound
    ensures ReadClaim(p, id, bound)(ClaimRow(sp)(r)) == r
  {
    hide ClaimRow, TextAt, NumberAt, SourceClassAt, StateAt, CurrentnessAt, ValueAt, ParseOptional, SpellsSet;
    ClaimSubject(sp, r);
    ClaimOrigin(sp, r);
    ClaimVersions(sp, r);
    ClaimNumbers(sp, r);
    OptionalIsRead(p.version, sp.version, r.claim.firmware);
    OptionalIsRead(p.version, sp.version, r.claim.driver);
    OptionalIsRead(p.reason, sp.reason, r.claim.reason);
  }

  lemma StateIsRead(row: Row, i: nat, s: CapabilityState)
    requires i < |row| && row[i] == NumberDatum(StateCode(s))
    ensures StateAt(row, i) == s
  {
  }

  lemma CurrentnessIsRead(row: Row, i: nat, c: Currentness)
    requires i < |row| && row[i] == NumberDatum(CurrentnessCode(c))
    ensures CurrentnessAt(row, i) == c
  {
  }

  lemma SourceClassIsRead(row: Row, i: nat, s: SourceClass)
    requires i < |row| && row[i] == NumberDatum(SourceClassCode(s))
    ensures SourceClassAt(row, i) == s
  {
  }

  /** Reading item by item undoes writing item by item. */
  lemma EachIsRead<T>(read: Row -> T, write: T -> Row, items: seq<T>)
    requires forall x :: x in items ==> read(write(x)) == x
    ensures Each(read, RowPerItem(write, items)) == items
  {
    var back := Each(read, RowPerItem(write, items));
    forall i | 0 <= i < |items| ensures back[i] == items[i] {
      assert items[i] in items;
    }
  }

  lemma EntityIsRead(p: Parsing, sp: Spelling, e: Steps.StoredEntity)
    requires Undoes(p, sp) && OwnClaims(e)
    ensures ReadEntity(p)(EntityRow(sp)(e)) == e
  {
    hide ClaimRow, CapabilityRow, FloorRow, ReadClaim, ReadCapability, ReadFloor, Each, RowPerItem;
    forall r | r in e.claims ensures ReadClaim(p, e.id, e.bound)(ClaimRow(sp)(r)) == r {
      ClaimIsRead(p, sp, e.id, e.bound, r);
    }
    PairsAreRead(p, sp);
    assert TextAt(EntityRow(sp)(e), 0) == sp.entity(e.id);
    EachIsRead(ReadClaim(p, e.id, e.bound), ClaimRow(sp), e.claims);
    EachIsRead(ReadCapability(p), CapabilityRow(sp), e.capabilities);
    EachIsRead(ReadFloor(p), FloorRow(sp), e.floors);
  }

  lemma PairsAreRead(p: Parsing, sp: Spelling)
    requires Undoes(p, sp)
    ensures forall x :: ReadCapability(p)(CapabilityRow(sp)(x)) == x
    ensures forall y :: ReadFloor(p)(FloorRow(sp)(y)) == y
  {
    forall x ensures ReadCapability(p)(CapabilityRow(sp)(x)) == x {
      assert TextAt(CapabilityRow(sp)(x), 0) == sp.capability(x.0);
    }
    forall y ensures ReadFloor(p)(FloorRow(sp)(y)) == y {
      assert TextAt(FloorRow(sp)(y), 0) == sp.source(y.0.source);
    }
  }

  lemma NamesAreRead(parse: Text -> Id, spell: Id -> Text, ids: seq<Id>)
    requires Inverts(parse, spell)
    ensures Each(ReadName(parse), RowPerItem(TextRow(spell), ids)) == ids
  {
    hide Each, RowPerItem;
    forall id | id in ids ensures ReadName(parse)(TextRow(spell)(id)) == id {
      assert TextAt(TextRow(spell)(id), 0) == spell(id);
    }
    EachIsRead(ReadName(parse), TextRow(spell), ids);
  }

  lemma KindsAreRead(p: Parsing, sp: Spelling, kinds: seq<Id>)
    requires Undoes(p, sp)
    ensures Each(ReadKind(p), RowPerItem(KindRow(sp), kinds)) == kinds
  {
    hide Each, RowPerItem;
    forall k | k in kinds ensures ReadKind(p)(KindRow(sp)(k)) == k {
      assert NumberAt(KindRow(sp)(k), 0) == sp.kind(k);
    }
    EachIsRead(ReadKind(p), KindRow(sp), kinds);
  }

  lemma MaskIsRead(modes: set<Mode>)
    ensures ModesOf(ModeMask(modes)) == modes
  {
    var a := if FullSnapshot in modes then 1 else 0;
    var b := if Incremental in modes then 1 else 0;
    var c := if PartialObservation in modes then 1 else 0;
    var mask := ModeMask(modes);
    assert mask == a + 2 * b + 4 * c;
    assert mask % 2 == a && mask / 2 % 2 == b && mask / 4 % 2 == c;
    forall m ensures m in ModesOf(mask) <==> m in modes {
      assert m == FullSnapshot || m == Incremental || m == PartialObservation;
    }
  }

  lemma GrantIsRead(p: Parsing, sp: Spelling, grant: Grant)
    requires Undoes(p, sp)
    ensures ReadGrant(p)(GrantRow(sp)(grant)) == grant
  {
    hide Each, RowPerItem, ModeMask, ModesOf;
    MaskIsRead(grant.modes);
    KindsAreRead(p, sp, grant.entityKinds);
    NamesAreRead(p.namespace, sp.namespace, grant.namespaces);
    NamesAreRead(p.publisher, sp.publisher, grant.allowedPublishers);
    var row := GrantRow(sp)(grant);
    assert TextAt(row, 0) == sp.scope(grant.scope);
    assert RowsAt(row, 1) == RowPerItem(KindRow(sp), grant.entityKinds);
    assert RowsAt(row, 2) == RowPerItem(TextRow(sp.namespace), grant.namespaces);
    assert RowsAt(row, 9) == RowPerItem(TextRow(sp.publisher), grant.allowedPublishers);
    assert NumberAt(row, 3) == ModeMask(grant.modes);
  }

  /** The rows of a saved registry mean that registry. */
  lemma RowsMeanSaved(p: Parsing, sp: Spelling, saved: Steps.Payload)
    requires Undoes(p, sp) && forall e :: e in saved.entities ==> OwnClaims(e)
    ensures Meaning(p, RowsOf(sp, saved)) == saved
  {
    hide GrantRow, FenceRow, RegistrationRow, EntityRow, ReadGrant, ReadFence, ReadRegistration, ReadEntity, Each,
      RowPerItem, Undoes;
    forall g | g in saved.authorities ensures ReadGrant(p)(GrantRow(sp)(g)) == g {
      GrantIsRead(p, sp, g);
    }
    forall e | e in saved.entities ensures ReadEntity(p)(EntityRow(sp)(e)) == e {
      EntityIsRead(p, sp, e);
    }
    forall f | f in saved.fences ensures ReadFence(p)(FenceRow(sp)(f)) == f {
      FenceIsRead(p, sp, f);
    }
    forall r | r in saved.registrations ensures ReadRegistration(p)(RegistrationRow(sp)(r)) == r {
      RegistrationIsRead(p, sp, r);
    }
    EachIsRead(ReadGrant(p), GrantRow(sp), saved.authorities);
    EachIsRead(ReadFence(p), FenceRow(sp), saved.fences);
    EachIsRead(ReadRegistration(p), RegistrationRow(sp), saved.registrations);
    EachIsRead(ReadEntity(p), EntityRow(sp), saved.entities);
  }

  lemma FenceIsRead(p: Parsing, sp: Spelling, f: Fence)
    requires Undoes(p, sp)
    ensures ReadFence(p)(FenceRow(sp)(f)) == f
  {
    assert TextAt(FenceRow(sp)(f), 0) == sp.boot(f.boot);
  }

  lemma RegistrationIsRead(p: Parsing, sp: Spelling, r: Steps.StoredRegistration)
    requires Undoes(p, sp)
    ensures ReadRegistration(p)(RegistrationRow(sp)(r)) == r
  {
    assert TextAt(RegistrationRow(sp)(r), 0) == sp.publisher(r.publisher);
  }

  // ----- the whole way -----

  lemma SavedClaimsAreOwn(env: Environment, st: State, saved: Steps.Payload, e: Steps.StoredEntity)
    requires StateOk(env, st) && Steps.Saves(st, saved) && e in saved.entities
    ensures OwnClaims(e)
  {
    hide FencesOk, ReplaysOk, Synced, EvidenceOk, Live;
    var entity := st.entities[e.id];
    assert EntityOk(ContextOf(env, st), e.id, entity);
    forall r | r in e.claims ensures r.entity == e.id && r.entityGeneration == e.bound {
      assert EntryOk(ContextOf(env, st), entity, r.claim.capability, entity.capabilities[r.claim.capability]);
      assert RecordOk(ContextOf(env, st), entity, r.claim.capability, r);
    }
  }

  /** A registry that is saved, written to a file, read back and loaded is the one that loading what was
      saved gives, as soon as its values and its lists are in the bounds of the file. */
  lemma FileRestoresRegistry(env: Environment, st: State, g: Grammar, sp: Spelling, p: Parsing, saved: Steps.Payload)
    requires StateOk(env, st) && Steps.Saves(st, saved) && Spelled(g, sp, saved) && Undoes(p, sp)
    requires WriteFile(g, RowsOf(sp, saved)).Ok? && InBounds(saved)
    requires |WriteFile(g, RowsOf(sp, saved)).value| <= 0x8000_0000
    ensures ReadFile(g, WriteFile(g, RowsOf(sp, saved)).value).Ok?
    ensures var file := WriteFile(g, RowsOf(sp, saved)).value;
            && Meaning(p, ReadFile(g, file).value) == saved
            && Steps.Load(Meaning(p, ReadFile(g, file).value)) == Steps.Load(saved)
  {
    hide StateOk, Steps.Saves, Spelled, Undoes, RowsOf, ReadFile, InBounds, Meaning, Steps.Load, Encode, FileOf;
    SavedIsReadExactly(g, sp, saved);
    FileLength(|RowsOf(sp, saved).entities|, Encode(g, RowsOf(sp, saved)).value);
    forall e | e in saved.entities ensures OwnClaims(e) {
      SavedClaimsAreOwn(env, st, saved, e);
    }
    RowsMeanSaved(p, sp, saved);
  }

  lemma FileLength(count: nat, body: seq<byte>)
    ensures |FileOf(count, body)| == HEADER_BYTES + |body|
  {
    hide Header, Crc32.Check;
  }
}
