/** Registries whose saved store is written but not read back. */
module RefusedSaves {
  import opened Sequences
  import opened Values
  import opened Evidence
  import opened RegistryState
  import opened EvidenceInvariant
  import opened RegistryInvariant
  import opened Bytes
  import opened ValueCodec
  import opened StoreRows
  import opened StorePayload
  import opened StoreFile
  import opened StoredRegistry
  import ResolutionRules
  import Steps = RegistrySteps

  // ----- how long a record is -----

  /** The writer accepts the datum: texts and lists are within the limits and values are short. */
  predicate Writable(shape: Shape, datum: Datum, most: nat)
    decreases shape, 0, 0
  {
    match shape
    case Identifier(limit, _) => datum.TextDatum? && |datum.text| <= limit
    case OptionalIdentifier(limit, _) => datum.TextDatum? && |datum.text| <= limit
    case Number(_, _, _) => datum.NumberDatum?
    case Flag => datum.FlagDatum?
    case Raw(count) => datum.RawDatum? && |datum.bytes| == count
    case ValueField => datum.ValueDatum? && |WriteValue(datum.value)| <= most
    case Rows(limit, row) => datum.RowsDatum? && |datum.rows| <= limit && WritableRows(row, datum.rows, most)
    case SortedRows(limit, row) => datum.RowsDatum? && |datum.rows| <= limit && WritableRows(row, datum.rows, most)
  }

  predicate WritableRow(shapes: seq<Shape>, row: Row, most: nat)
    decreases shapes, 0, |shapes|
  {
    if shapes == [] then row == []
    else row != [] && Writable(shapes[0], row[0], most) && WritableRow(shapes[1..], row[1..], most)
  }

  predicate WritableRows(shapes: seq<Shape>, rows: seq<Row>, most: nat)
    decreases shapes, 1, |rows|
  {
    rows == [] || (WritableRows(shapes, rows[..|rows| - 1], most) && WritableRow(shapes, rows[|rows| - 1], most))
  }

  /** The most bytes a field takes, if no value takes more than `most`. */
  function FieldBytes(shape: Shape, most: nat): nat
    decreases shape, 0
  {
    match shape
    case Identifier(limit, _) => limit + 4
    case OptionalIdentifier(limit, _) => limit + 4
    case Number(width, _, _) => width
    case Flag => 1
    case Raw(count) => count
    case ValueField => most
    case Rows(limit, row) => 4 + limit * RowBytes(row, most)
    case SortedRows(limit, row) => 4 + limit * RowBytes(row, most)
  }

  function RowBytes(shapes: seq<Shape>, most: nat): nat
    decreases shapes, |shapes|
  {
    if shapes == [] then 0 else FieldBytes(shapes[0], most) + RowBytes(shapes[1..], most)
  }

  lemma {:induction false} FieldLength(shape: Shape, datum: Datum, most: nat)
    requires Writable(shape, datum, most)
    ensures WriteDatum(shape, datum).Ok? && |WriteDatum(shape, datum).value| <= FieldBytes(shape, most)
    decreases shape, 0, 0
  {
    hide WriteValue, LittleEndian, WriteRows, RowBytes;
    match shape
    case Rows(limit, row) =>
      ListLength(row, datum.rows, most);
      MoreTimes(|datum.rows|, limit, RowBytes(row, most));
    case SortedRows(limit, row) =>
      ListLength(row, datum.rows, most);
      MoreTimes(|datum.rows|, limit, RowBytes(row, most));
    case _ =>
  }

  lemma MoreTimes(a: nat, b: nat, size: nat)
    requires a <= b
    ensures a * size <= b * size
  {
  }

  lemma {:induction false} WritableRowLength(shapes: seq<Shape>, row: Row, most: nat)
    requires WritableRow(shapes, row, most)
    ensures WriteRow(shapes, row).Ok? && |WriteRow(shapes, row).value| <= RowBytes(shapes, most)
    decreases shapes, 0, |shapes|
  {
    hide Writable, WriteDatum, FieldBytes;
    if shapes != [] {
      FieldLength(shapes[0], row[0], most);
      WritableRowLength(shapes[1..], row[1..], most);
    }
  }

  lemma {:induction false} ListLength(shapes: seq<Shape>, rows: seq<Row>, most: nat)
    requires WritableRows(shapes, rows, most)
    ensures WriteRows(shapes, rows).Ok? && |WriteRows(shapes, rows).value| <= |rows| * RowBytes(shapes, most)
    decreases shapes, 1, |rows|
  {
    hide WritableRow, WriteRow, RowBytes;
    if rows != [] {
      var n := |rows| - 1;
      ListLength(shapes, rows[..n], most);
      WritableRowLength(shapes, rows[n], most);
      OneMoreTime(|rows|, RowBytes(shapes, most));
    }
  }

  lemma {:induction false} WritableEach(shapes: seq<Shape>, rows: seq<Row>, most: nat)
    requires forall row :: row in rows ==> WritableRow(shapes, row, most)
    ensures WritableRows(shapes, rows, most)
    decreases |rows|
  {
    if rows != [] {
      WritableEach(shapes, rows[..|rows| - 1], most);
    }
  }

  /** A record that fits, and whose values are short, is writable. */
  lemma {:induction false} WritableFields(shapes: seq<Shape>, row: Row, most: nat)
    requires |shapes| == |row| && forall i :: 0 <= i < |shapes| ==> Writable(shapes[i], row[i], most)
    ensures WritableRow(shapes, row, most)
    decreases |shapes|
  {
    hide Writable;
    if shapes != [] {
      assert forall i :: 0 <= i < |shapes| - 1 ==> shapes[1..][i] == shapes[i + 1] && row[1..][i] == row[i + 1];
      WritableFields(shapes[1..], row[1..], most);
    }
  }

  lemma {:induction false} RecordsLength(kind: nat, shapes: seq<Shape>, rows: seq<Row>, most: nat)
    requires forall row :: row in rows ==> WritableRow(shapes, row, most)
    ensures EncodeRecords(kind, shapes, rows).Ok?
    ensures |EncodeRecords(kind, shapes, rows).value| <= |rows| * (RowBytes(shapes, most) + 5)
    decreases |rows|
  {
    hide WriteRow, WritableRow, RowBytes;
    if rows != [] {
      var n := |rows| - 1;
      RecordsLength(kind, shapes, rows[..n], most);
      WritableRowLength(shapes, rows[n], most);
      OneMoreTime(|rows|, RowBytes(shapes, most) + 5);
    }
  }

  // ----- the records of a registry -----

  /** The fields of an entity, with room for more claims and floors than the reader takes. */
  function WideShape(g: Grammar): seq<Shape> {
    [Identifier(160, g.entity), Number(8, 1, 0xFFFF_FFFF_FFFF_FFFF), Counter(), Flag, Counter(), Flag, Reason()]
    + [SortedRows(4096, [Identifier(192, g.capability), Counter()])] + [Rows(200_000, ClaimShape(g))]
    + [Rows(200_000, [Name(), Boot(), Counter()])]
    + [Rows(8, [Counter(), Counter(), Raw(32), Counter(), Counter(), Counter(), Reason()])]
  }

  lemma {:induction false} SameWriting(a: seq<Shape>, b: seq<Shape>, row: Row)
    requires |a| == |b| == |row| && forall i :: 0 <= i < |a| ==> WriteDatum(a[i], row[i]) == WriteDatum(b[i], row[i])
    ensures WriteRow(a, row) == WriteRow(b, row)
    decreases |a|
  {
    hide WriteDatum;
    if a != [] {
      assert forall i :: 0 <= i < |a| - 1 ==>
               a[1..][i] == a[i + 1] && b[1..][i] == b[i + 1] && row[1..][i] == row[i + 1];
      SameWriting(a[1..], b[1..], row[1..]);
    }
  }

  lemma WidelyWritten(g: Grammar, row: Row)
    requires |row| == 11
    ensures WriteRow(EntityShape(g), row) == WriteRow(WideShape(g), row)
  {
    hide WriteRows;
    SameWriting(EntityShape(g), WideShape(g), row);
  }

  lemma {:induction false} BytesOfParts(a: seq<Shape>, b: seq<Shape>, most: nat)
    ensures RowBytes(a + b, most) == RowBytes(a, most) + RowBytes(b, most)
    decreases |a|
  {
    hide FieldBytes;
    if a == [] {
      assert a + b == b;
    } else {
      assert (a + b)[1..] == a[1..] + b;
      BytesOfParts(a[1..], b, most);
    }
  }

  lemma {:induction false} ShortFields(shapes: seq<Shape>, most: nat, bound: nat)
    requires forall shape :: shape in shapes ==> FieldBytes(shape, most) <= bound
    ensures RowBytes(shapes, most) <= |shapes| * bound
    decreases |shapes|
  {
    hide FieldBytes;
    if shapes != [] {
      ShortFields(shapes[1..], most, bound);
      OneMoreTime(|shapes|, bound);
    }
  }

  lemma ClaimBytes(g: Grammar)
    ensures RowBytes(ClaimShape(g), 100) <= 4200
  {
    hide RowBytes;
    ShortFields(ClaimShape(g), 100, 200);
  }

  lemma OneField(shape: Shape, most: nat)
    ensures RowBytes([shape], most) == FieldBytes(shape, most)
  {
    assert [shape][1..] == [];
  }

  lemma WideBytes(g: Grammar)
    ensures RowBytes(WideShape(g), 100) <= 1_000_000_000
  {
    hide RowBytes, ClaimShape;
    var head := [Identifier(160, g.entity), Number(8, 1, 0xFFFF_FFFF_FFFF_FFFF), Counter(), Flag, Counter(), Flag,
                 Reason()];
    var names, history := [Identifier(192, g.capability), Counter()],
                          [Counter(), Counter(), Raw(32), Counter(), Counter(), Counter(), Reason()];
    var floors := [Name(), Boot(), Counter()];
    ShortFields(head, 100, 200);
    ShortFields(names, 100, 200);
    ShortFields(floors, 100, 200);
    ShortFields(history, 100, 200);
    ClaimBytes(g);
    MoreTimes(RowBytes(names, 100), 400, 4096);
    MoreTimes(RowBytes(ClaimShape(g), 100), 4200, 200_000);
    MoreTimes(RowBytes(floors, 100), 600, 200_000);
    MoreTimes(RowBytes(history, 100), 1400, 8);
    OneField(SortedRows(4096, names), 100);
    OneField(Rows(200_000, ClaimShape(g)), 100);
    OneField(Rows(200_000, floors), 100);
    OneField(Rows(8, history), 100);
    BytesOfParts(head, [SortedRows(4096, names)], 100);
    BytesOfParts(head + [SortedRows(4096, names)], [Rows(200_000, ClaimShape(g))], 100);
    BytesOfParts(head + [SortedRows(4096, names)] + [Rows(200_000, ClaimShape(g))], [Rows(200_000, floors)], 100);
    BytesOfParts(head + [SortedRows(4096, names)] + [Rows(200_000, ClaimShape(g))] + [Rows(200_000, floors)],
                 [Rows(8, history)], 100);
  }

  lemma ItemsWritable<T>(shapes: seq<Shape>, row: T -> Row, items: seq<T>, most: nat)
    requires forall x :: x in items ==> WritableRow(shapes, row(x), most)
    ensures WritableRows(shapes, RowPerItem(row, items), most)
  {
    hide WritableRow;
    WritableEach(shapes, RowPerItem(row, items), most);
  }

  lemma TextWritable(text: Text, limit: nat, rule: Text -> bool)
    requires IsText(text, limit, rule)
    ensures Writable(Identifier(limit, rule), TextDatum(text), 100)
  {
  }

  lemma OptionalWritable(spell: Id -> Text, id: Id, limit: nat, rule: Text -> bool)
    requires IsOptional(spell, id, limit, rule)
    ensures Writable(OptionalIdentifier(limit, rule), Optional(spell, id), 100)
  {
  }

  lemma PlainWritable(n: nat, b: bool, width: nat, low: nat, high: nat)
    ensures Writable(Number(width, low, high), NumberDatum(n), 100) && Writable(Flag, FlagDatum(b), 100)
  {
  }

  lemma ClaimWritable(g: Grammar, sp: Spelling, r: Record)
    requires RecordSpelled(g, sp, r) && |WriteValue(r.claim.value)| <= 100
    ensures WritableRow(ClaimShape(g), ClaimRow(sp)(r), 100)
  {
    hide WritableRow, IsText, IsOptional, Optional, WriteValue, SourceClassCode, StateCode, CurrentnessCode;
    var shapes, row := ClaimShape(g), ClaimRow(sp)(r);
    TextWritable(sp.capability(r.claim.capability), 192, g.capability);
    TextWritable(sp.evidence(r.Identity()), 32, EvidenceIdRule);
    TextWritable(sp.source(r.key.source), 96, NameRule);
    TextWritable(sp.publisher(r.publisher), 96, NameRule);
    TextWritable(sp.scope(r.scope), 96, NameRule);
    TextWritable(sp.boot(r.key.boot), 64, BootRule);
    TextWritable(sp.attempt(r.attempt), 96, AttemptRule);
    TextWritable(sp.publication(r.publication), 96, AttemptRule);
    OptionalWritable(sp.version, r.claim.firmware, 64, VersionRule);
    OptionalWritable(sp.version, r.claim.driver, 64, VersionRule);
    OptionalWritable(sp.reason, r.claim.reason, 192, ReasonRule);
    WritableFields(shapes, row, 100);
  }

  lemma FloorWritable(sp: Spelling, p: (SourceKey, nat))
    requires IsText(sp.source(p.0.source), 96, NameRule) && IsText(sp.boot(p.0.boot), 64, BootRule)
    ensures WritableRow([Name(), Boot(), Counter()], FloorRow(sp)(p), 100)
  {
    hide WritableRow;
    WritableFields([Name(), Boot(), Counter()], FloorRow(sp)(p), 100);
  }

  lemma CapabilityWritable(g: Grammar, sp: Spelling, p: (Id, nat))
    requires IsText(sp.capability(p.0), 192, g.capability)
    ensures WritableRow([Identifier(192, g.capability), Counter()], CapabilityRow(sp)(p), 100)
  {
    hide WritableRow;
    WritableFields([Identifier(192, g.capability), Counter()], CapabilityRow(sp)(p), 100);
  }

  /** An entity with short values and no more than 200000 claims and floors is written. */
  lemma EntityWritable(g: Grammar, sp: Spelling, e: Steps.StoredEntity)
    requires EntitySpelled(g, sp, e) && |e.capabilities| <= 4096 && |e.claims| <= 200_000 && |e.floors| <= 200_000
    requires forall r :: r in e.claims ==> |WriteValue(r.claim.value)| <= 100
    ensures WritableRow(WideShape(g), EntityRow(sp)(e), 100)
    ensures WriteRow(EntityShape(g), EntityRow(sp)(e)) == WriteRow(WideShape(g), EntityRow(sp)(e))
  {
    hide WritableRow, WritableRows, IsText, RecordSpelled, WriteValue, ClaimShape, ClaimRow, FloorRow, CapabilityRow,
      IsOptional, Optional, WriteRow;
    var shapes, row := WideShape(g), EntityRow(sp)(e);
    forall r | r in e.claims ensures WritableRow(ClaimShape(g), ClaimRow(sp)(r), 100) {
      ClaimWritable(g, sp, r);
    }
    forall p | p in e.floors ensures WritableRow([Name(), Boot(), Counter()], FloorRow(sp)(p), 100) {
      FloorWritable(sp, p);
    }
    forall p | p in e.capabilities
      ensures WritableRow([Identifier(192, g.capability), Counter()], CapabilityRow(sp)(p), 100)
    {
      CapabilityWritable(g, sp, p);
    }
    ItemsWritable(ClaimShape(g), ClaimRow(sp), e.claims, 100);
    ItemsWritable([Name(), Boot(), Counter()], FloorRow(sp), e.floors, 100);
    ItemsWritable([Identifier(192, g.capability), Counter()], CapabilityRow(sp), e.capabilities, 100);
    WritableEach([Counter(), Counter(), Raw(32), Counter(), Counter(), Counter(), Reason()], [], 100);
    TextWritable(sp.entity(e.id), 160, g.entity);
    OptionalWritable(sp.reason, e.reason, 192, ReasonRule);
    WritableFields(shapes, row, 100);
    WidelyWritten(g, row);
  }

  // ----- a registry with one entity -----

  const GRANT: Grant := Grant(1, [1], [1], {PartialObservation}, false, true, 0, [], 4096)

  lemma GrantWritable(g: Grammar, sp: Spelling)
    requires GrantSpelled(g, sp, GRANT)
    ensures WriteRow(GrantShape(g), GrantRow(sp)(GRANT)).Ok?
    ensures |WriteRow(GrantShape(g), GrantRow(sp)(GRANT)).value| <= 5_000_000
  {
    hide WritableRow, WritableRows, WriteRow, RowBytes;
    var shapes, row := GrantShape(g), GrantRow(sp)(GRANT);
    WritableFields([Number(1, 1, 11)], KindRow(sp)(1), 100);
    WritableFields([Identifier(192, g.namespace)], TextRow(sp.namespace)(1), 100);
    ItemsWritable([Number(1, 1, 11)], KindRow(sp), [1], 100);
    ItemsWritable([Identifier(192, g.namespace)], TextRow(sp.namespace), [1], 100);
    ItemsWritable([Name()], TextRow(sp.publisher), [], 100);
    WritableFields(shapes, row, 100);
    WritableRowLength(shapes, row, 100);
    ShortFields([Number(1, 1, 11)], 100, 200);
    ShortFields([Identifier(192, g.namespace)], 100, 200);
    ShortFields([Name()], 100, 100);
    MoreTimes(RowBytes([Number(1, 1, 11)], 100), 200, 16);
    MoreTimes(RowBytes([Identifier(192, g.namespace)], 100), 200, 64);
    MoreTimes(RowBytes([Name()], 100), 100, 4096);
    ShortFields(shapes, 100, 500_000);
  }

  /** A store with that scope and one entity is written. */
  lemma OneEntityIsWritten(g: Grammar, sp: Spelling, epoch: nat, registryGeneration: nat, e: Steps.StoredEntity)
    requires GrantSpelled(g, sp, GRANT)
    requires EntitySpelled(g, sp, e) && |e.capabilities| <= 4096 && |e.claims| <= 200_000 && |e.floors| <= 200_000
    requires forall r :: r in e.claims ==> |WriteValue(r.claim.value)| <= 100
    ensures var p := RowsOf(sp, Steps.Payload(epoch, registryGeneration, [GRANT], [], [], [e]));
            && WriteFile(g, p).Ok? && Encode(g, p).Ok?
            && |Encode(g, p).value| <= MAX_PERSISTENCE_BYTES - HEADER_BYTES
  {
    hide GrantSpelled, EntitySpelled, WriteRow, WriteValue, GrantShape, EntityShape, GrantRow, EntityRow, WideShape,
      RowBytes, WritableRow, FileOf;
    var p := RowsOf(sp, Steps.Payload(epoch, registryGeneration, [GRANT], [], [], [e]));
    GrantWritable(g, sp);
    EntityWritable(g, sp, e);
    WritableRowLength(WideShape(g), EntityRow(sp)(e), 100);
    WideBytes(g);
    MetaLength(p);
    OneRecord(RECORD_AUTHORITY, GrantShape(g), p.authorities[0]);
    OneRecord(RECORD_ENTITY, EntityShape(g), p.entities[0]);
    assert p.authorities == [p.authorities[0]] && p.entities == [p.entities[0]] && p.fences == []
           && p.registrations == [];
  }

  lemma MetaLength(p: StorePayload.Payload)
    ensures EncodeRecord(RECORD_META, MetaShape(), MetaRow(p)).Ok?
    ensures |EncodeRecord(RECORD_META, MetaShape(), MetaRow(p)).value| <= 1000
  {
    hide WriteRow, WritableRow;
    WritableFields(MetaShape(), MetaRow(p), 100);
    WritableRowLength(MetaShape(), MetaRow(p), 100);
    ShortFields(MetaShape(), 100, 200);
  }

  lemma OneRecord(kind: nat, shapes: seq<Shape>, row: Row)
    requires WriteRow(shapes, row).Ok?
    ensures EncodeRecords(kind, shapes, [row]).Ok?
    ensures |EncodeRecords(kind, shapes, [row]).value| == |WriteRow(shapes, row).value| + 5
  {
    hide WriteRow;
    assert [row][..0] == [];
  }

  // ----- a capability that many sources declare -----

  /** The number in base six, least digit first, with the letters a to f as digits. */
  function Digits(n: nat, width: nat): (text: Text)
    ensures |text| == width
    ensures forall i :: 0 <= i < width ==> 0x61 <= text[i] <= 0x66
  {
    if width == 0 then [] else [(0x61 + n % 6) as byte] + Digits(n / 6, width - 1)
  }

  lemma {:induction false} DigitsDiffer(a: nat, b: nat, width: nat, bound: nat)
    requires a != b && a < bound && b < bound && bound <= SixTo(width)
    ensures Digits(a, width) != Digits(b, width)
    decreases width
  {
    if a % 6 == b % 6 {
      DigitsDiffer(a / 6, b / 6, width - 1, SixTo(width - 1));
      assert Digits(a, width)[1..] == Digits(a / 6, width - 1) && Digits(b, width)[1..] == Digits(b / 6, width - 1);
    } else {
      assert Digits(a, width)[0] != Digits(b, width)[0];
    }
  }

  function SixTo(width: nat): nat { if width == 0 then 1 else 6 * SixTo(width - 1) }

  lemma DigitsAreTokens(n: nat)
    ensures ControlFree(Digits(n, 8)) && NameRule(Digits(n, 8)) && BootRule(Digits(n, 8)) && AttemptRule(Digits(n, 8))
    ensures ControlFree(Digits(n, 32)) && EvidenceIdRule(Digits(n, 32))
  {
  }

  /** Eight letters spell an identifier; the boot spells the identifier of the evidence of its source. */
  function Letters(): Spelling {
    var spell := (id: Id) => Digits(id, 8);
    Spelling(spell, spell, spell, spell, spell, spell, spell, spell, spell, spell, spell,
             (e: EvidenceId) => Digits(e.boot, 32), (id: Id) => 1)
  }

  const PLAIN: Grammar := Grammar(NameRule, NameRule, NameRule)

  const ROOMY: Environment := Environment(Options(8, 8, 200_000, 8, 8, 8, 8), [], x => 1, x => 1)

  function KeyAt(i: nat): SourceKey { SourceKey(i + 1, i + 1) }

  /** The durable declaration of one source. */
  function Declaration(i: nat, value: CapabilityValue): Record {
    Record(KeyAt(i), i + 1, 1, 1, 1, 1, i + 1, i + 1, 1, 1,
           Claim(1, Supported, value, 2, AdministrativeDeclaration, Durable, Partial, 0, 0, 0), Current)
  }

  function Declarations(n: nat, value: CapabilityValue): seq<Record> {
    seq(n, i requires 0 <= i < n => Declaration(i, value))
  }

  function Floors(n: nat): seq<(SourceKey, nat)> { seq(n, i requires 0 <= i < n => (KeyAt(i), 1)) }

  ghost function FloorMap(n: nat): map<SourceKey, nat> { map i: nat | 0 <= i < n :: KeyAt(i) := 1 }

  /** An entity after n sources declared one capability, one publication each. */
  ghost function Declared(n: nat, value: CapabilityValue): Entity {
    var evidence := Declarations(n, value);
    var entry := Entry(n, evidence, Some(Resolve(1, n, evidence)));
    Refresh(Entity(1, 1, 1, true, n, false, 0, map[1 := entry], FloorMap(n), None), n)
  }

  ghost function Crowded(n: nat, value: CapabilityValue): State {
    State(1, n, map[1 := GRANT], map[], {}, [], map[1 := Declared(n, value)])
  }

  function SavedCrowd(n: nat, value: CapabilityValue): Steps.Payload {
    Steps.Payload(1, n, [GRANT], [], [],
                  [Steps.StoredEntity(1, 1, 1, true, n, false, 0, [(1, n)], Declarations(n, value), Floors(n))])
  }

  lemma CrowdIsOk(n: nat, value: CapabilityValue)
    requires n <= 200_000
    ensures ROOMY.Valid() && StateOk(ROOMY, Crowded(n, value))
  {
    hide Resolve, Filter, SortedResolutions;
    var st, evidence := Crowded(n, value), Declarations(n, value);
    assert ResolutionRules.KeyOrdered(evidence);
    assert EvidenceOk(200_000, evidence);
    assert EntryOk(ContextOf(ROOMY, st), st.entities[1], 1, st.entities[1].capabilities[1]);
    assert EntityOk(ContextOf(ROOMY, st), 1, st.entities[1]);
  }

  lemma CrowdIsSaved(n: nat, value: CapabilityValue)
    ensures Steps.Saves(Crowded(n, value), SavedCrowd(n, value))
  {
    hide Resolve, SortedResolutions;
    var e, se := Declared(n, value), SavedCrowd(n, value).entities[0];
    CrowdIsStored(n, value);
    assert Steps.SavesEntities(map[1 := e], [se]);
  }

  lemma CrowdIsStored(n: nat, value: CapabilityValue)
    ensures Steps.Stores(Declared(n, value), SavedCrowd(n, value).entities[0])
  {
    hide Resolve, SortedResolutions;
    var e, se := Declared(n, value), SavedCrowd(n, value).entities[0];
    assert Steps.StoresCapabilities(e, se.capabilities);
    assert Steps.StoresClaims(e, se.claims);
    forall p ensures p in se.floors <==> p.0 in e.highWater && e.highWater[p.0] == p.1 {
      if p.0 in e.highWater && e.highWater[p.0] == p.1 {
        var i: nat :| 0 <= i < n && KeyAt(i) == p.0;
        assert se.floors[i] == p;
      }
    }
  }

  predicate SourcesSpelledApart(sp: Spelling, claims: seq<Record>) {
    forall i, j :: 0 <= i < j < |claims| ==> sp.source(claims[i].key.source) != sp.source(claims[j].key.source)
  }

  lemma SourcesDiffer(n: nat, value: CapabilityValue)
    requires n <= 200_000
    ensures SourcesSpelledApart(Letters(), Declarations(n, value))
  {
    assert SixTo(4) == 1296;
    assert SixTo(8) == 1296 * SixTo(4);
    var claims := Declarations(n, value);
    forall i, j | 0 <= i < j < |claims|
      ensures Letters().source(claims[i].key.source) != Letters().source(claims[j].key.source)
    {
      DigitsDiffer(i + 1, j + 1, 8, 1_000_000);
    }
  }

  lemma CrowdIsSpelled(n: nat, value: CapabilityValue)
    requires n < TWO_TO_64
    ensures Spelled(PLAIN, Letters(), SavedCrowd(n, value))
    ensures EntitySpelled(PLAIN, Letters(), SavedCrowd(n, value).entities[0]) && GrantSpelled(PLAIN, Letters(), GRANT)
  {
    hide ControlFree, NameRule, BootRule, AttemptRule, EvidenceIdRule, VersionRule, ReasonRule, Digits;
    forall i: nat ensures ControlFree(Digits(i, 8)) && NameRule(Digits(i, 8)) && BootRule(Digits(i, 8))
                          && AttemptRule(Digits(i, 8)) && ControlFree(Digits(i, 32)) && EvidenceIdRule(Digits(i, 32))
    {
      DigitsAreTokens(i);
    }
    var e := SavedCrowd(n, value).entities[0];
    forall r | r in e.claims ensures RecordSpelled(PLAIN, Letters(), r) {
    }
  }

  lemma CrowdInBounds(n: nat, value: CapabilityValue)
    ensures InBounds(SavedCrowd(n, value)) <==> n <= 65536 && (n > 0 ==> Encodable(value))
  {
    hide Encodable;
    var saved := SavedCrowd(n, value);
    var e := saved.entities[0];
    assert saved.entities == [e] && e in saved.entities;
    assert forall i :: 0 <= i < n ==> e.claims[i].claim.value == value;
    if n > 0 {
      assert e.claims[0] in e.claims;
    }
    assert InBounds(saved) <==> EntityInBounds(e);
  }

  /** A registry in which n sources declared one capability is saved, and its store is written; it is read
      back exactly when no more than 65536 of them did and the value is one the codec carries. */
  lemma CrowdIsReadExactly(n: nat, value: CapabilityValue)
    requires n <= 200_000 && |WriteValue(value)| <= 100
    ensures StateOk(ROOMY, Crowded(n, value)) && Steps.Saves(Crowded(n, value), SavedCrowd(n, value))
    ensures SourcesSpelledApart(Letters(), Declarations(n, value))
    ensures var store := RowsOf(Letters(), SavedCrowd(n, value));
            && WriteFile(PLAIN, store).Ok?
            && (ReadFile(PLAIN, WriteFile(PLAIN, store).value) == Ok(store) <==>
                n <= 65536 && (n > 0 ==> Encodable(value)))
  {
    hide WriteFile, ReadFile, Encode, RowsOf, WriteValue, Encodable, Spelled, StateOk, EntitySpelled, GrantSpelled,
      Crowded, Steps.Saves, SourcesSpelledApart;
    SourcesDiffer(n, value);
    CrowdIsOk(n, value);
    CrowdIsSaved(n, value);
    CrowdIsSpelled(n, value);
    var saved := SavedCrowd(n, value);
    OneEntityIsWritten(PLAIN, Letters(), 1, n, saved.entities[0]);
    SavedIsReadExactly(PLAIN, Letters(), saved);
    CrowdInBounds(n, value);
  }

  /** Two saved registries that are refused: one source declares an integer the codec does not carry;
      65537 sources declare a capability. */
  lemma SavedRegistriesAreRefused()
    ensures var one, many := RowsOf(Letters(), SavedCrowd(1, IntegerValue(-0x4000_0000_0000_0000))),
                             RowsOf(Letters(), SavedCrowd(65537, Absent));
            && Steps.Saves(Crowded(1, IntegerValue(-0x4000_0000_0000_0000)),
                           SavedCrowd(1, IntegerValue(-0x4000_0000_0000_0000)))
            && WriteFile(PLAIN, one).Ok? && ReadFile(PLAIN, WriteFile(PLAIN, one).value) != Ok(one)
            && Steps.Saves(Crowded(65537, Absent), SavedCrowd(65537, Absent))
            && WriteFile(PLAIN, many).Ok? && ReadFile(PLAIN, WriteFile(PLAIN, many).value) != Ok(many)
  {
    hide WriteFile, ReadFile, RowsOf, StateOk, Steps.Saves, SavedCrowd, Crowded;
    CrowdIsReadExactly(1, IntegerValue(-0x4000_0000_0000_0000));
    CrowdIsReadExactly(65537, Absent);
  }
}
