/** Stores that are written but not read back, and stores that are read although they repeat an
    entity or a claim: one payload for each promise the store does not keep. Registries whose own save is
    refused are in `RefusedSaves`. */
module StoreLimits {
  import opened Values
  import opened Bytes
  import opened ValueCodec
  import opened StoreRows
  import opened StorePayload
  import opened StoreFile

  // ----- a claim and an entity as Save writes them -----

  function Letters(count: nat): (text: Text)
    ensures |text| == count
  {
    seq(count, i => 0x61)
  }

  /** A durable administrative claim; the capability and the value are free. */
  function ClaimRow(capability: Text, value: CapabilityValue): Row {
    [TextDatum(capability), TextDatum(Letters(32)), TextDatum(Letters(1)), TextDatum(Letters(1)), TextDatum(Letters(1)),
     TextDatum(Letters(8)), TextDatum(Letters(1)), TextDatum(Letters(1)), NumberDatum(1), NumberDatum(1),
     NumberDatum(1),
     NumberDatum(2), NumberDatum(7), NumberDatum(1), NumberDatum(0), NumberDatum(1), NumberDatum(0), ValueDatum(value),
     TextDatum([]), TextDatum([]), TextDatum([])]
  }

  function EntityRow(id: Text, generation: nat, capability: Text, claims: seq<Row>): Row {
    [TextDatum(id), NumberDatum(generation), NumberDatum(generation), FlagDatum(true), NumberDatum(1), FlagDatum(false),
     TextDatum([]), RowsDatum([[TextDatum(capability), NumberDatum(1)]]), RowsDatum(claims), RowsDatum([]),
     RowsDatum([])]
  }

  /** The two identifiers are ones the grammar accepts. */
  predicate NamesOk(g: Grammar, id: Text, capability: Text) {
    && |id| <= 160 && ControlFree(id) && g.entity(id)
    && |capability| <= 192 && ControlFree(capability) && g.capability(capability)
  }

  const VALUE_FIELD: nat := 17
  const CLAIMS_FIELD: nat := 8

  function ClaimsField(g: Grammar): Shape { Rows(65536, ClaimShape(g)) }

  lemma ClaimsFieldMeans(g: Grammar, claims: seq<Row>, input: seq<byte>)
    ensures WriteDatum(ClaimsField(g), RowsDatum(claims)) ==
            Join(Ok(WriteU32(|claims|)), WriteRows(ClaimShape(g), claims))
    ensures FitsDatum(ClaimsField(g), RowsDatum(claims)) <==> |claims| <= 65536 && FitsRows(ClaimShape(g), claims)
    ensures ReadDatum(ClaimsField(g), input) ==
            match ReadRowsWithin(65536, ClaimShape(g), input)
            case Failed(error) => Failed(error)
            case Parsed(rows, rest) => Parsed(RowsDatum(rows), rest)
  {
    hide ClaimShape, FitsRows, WriteRows, ReadRowsWithin;
  }

  lemma LettersAreNames(count: nat)
    requires 1 <= count <= 64
    ensures ControlFree(Letters(count)) && NameRule(Letters(count)) && AttemptRule(Letters(count))
    ensures count >= 8 ==> BootRule(Letters(count))
    ensures count == 32 ==> EvidenceIdRule(Letters(count))
  {
  }

  lemma EmptyIsControlFree()
    ensures ControlFree([])
  {
  }

  lemma ClaimFieldsFit(g: Grammar, id: Text, capability: Text, value: CapabilityValue)
    requires NamesOk(g, id, capability)
    ensures forall i :: 0 <= i < 21 && i != VALUE_FIELD ==> FitsDatum(ClaimShape(g)[i], ClaimRow(capability, value)[i])
    ensures ClaimShape(g)[VALUE_FIELD] == ValueField && |ClaimShape(g)| == 21
  {
    hide ControlFree, NameRule, BootRule, EvidenceIdRule, AttemptRule, Letters, FitsRows, Encodable, Power256;
    LettersAreNames(1);
    LettersAreNames(8);
    LettersAreNames(32);
    Powers();
    EmptyIsControlFree();
  }

  lemma EntityFieldsFit(g: Grammar, id: Text, generation: nat, capability: Text, claims: seq<Row>)
    requires NamesOk(g, id, capability) && 1 <= generation < TWO_TO_64
    ensures forall i :: 0 <= i < 11 && i != CLAIMS_FIELD ==>
              FitsDatum(EntityShape(g)[i], EntityRow(id, generation, capability, claims)[i])
    ensures EntityShape(g)[CLAIMS_FIELD] == ClaimsField(g) && |EntityShape(g)| == 11
  {
    hide ControlFree, ClaimShape, Power256;
    Powers();
    EmptyIsControlFree();
    var shapes, row := [Identifier(192, g.capability), Counter()], [TextDatum(capability), NumberDatum(1)];
    FitsEachField(shapes, row);
    assert FitsRows(shapes, []) && FitsRows(shapes, [row][..0]);
    assert FitsRows(shapes, [row]);
  }

  /** An entity fits exactly when its claims do; nothing compares them with one another. */
  lemma EntityFitsExactly(g: Grammar, id: Text, generation: nat, capability: Text, claims: seq<Row>)
    requires NamesOk(g, id, capability) && 1 <= generation < TWO_TO_64
    ensures FitsRow(EntityShape(g), EntityRow(id, generation, capability, claims)) <==>
            |claims| <= 65536 && FitsRows(ClaimShape(g), claims)
  {
    hide FitsDatum, EntityShape, ClaimShape, ClaimsField;
    EntityFieldsFit(g, id, generation, capability, claims);
    ClaimsFieldMeans(g, claims, []);
    assert EntityRow(id, generation, capability, claims)[CLAIMS_FIELD] == RowsDatum(claims);
    FitsEachField(EntityShape(g), EntityRow(id, generation, capability, claims));
  }

  lemma ClaimFitsExactly(g: Grammar, id: Text, capability: Text, value: CapabilityValue)
    requires NamesOk(g, id, capability)
    ensures FitsRow(ClaimShape(g), ClaimRow(capability, value)) <==> Encodable(value)
  {
    hide ClaimShape, Encodable;
    ClaimFieldsFit(g, id, capability, value);
    FitsEachField(ClaimShape(g), ClaimRow(capability, value));
  }

  // ----- how long these records are -----

  lemma DatumLength(shape: Shape, datum: Datum, limit: nat)
    requires FitsDatum(shape, datum) && !shape.Rows? && !shape.SortedRows? && !shape.ValueField?
    requires shape.Identifier? || shape.OptionalIdentifier? ==> shape.limit <= limit
    requires shape.Number? ==> shape.width <= limit
    requires shape.Raw? ==> shape.count <= limit
    ensures WriteDatum(shape, datum).Ok? && |WriteDatum(shape, datum).value| <= limit + 4
  {
    hide LittleEndian, ControlFree, FitsRows, Encodable;
  }

  const MOST_FIELD_BYTES: nat := 220
  const MOST_CLAIM_BYTES: nat := 5000

  lemma ClaimLength(g: Grammar, id: Text, capability: Text, value: CapabilityValue)
    requires NamesOk(g, id, capability) && |WriteValue(value)| <= 100
    ensures var written := WriteRow(ClaimShape(g), ClaimRow(capability, value));
            written.Ok? && |written.value| <= MOST_CLAIM_BYTES
  {
    hide WriteDatum, FitsDatum, WriteRow, WriteValue;
    var shapes, row := ClaimShape(g), ClaimRow(capability, value);
    ClaimFieldsFit(g, id, capability, value);
    forall i | 0 <= i < 21
      ensures WriteDatum(shapes[i], row[i]).Ok?
      ensures |WriteDatum(shapes[i], row[i]).value| <= MOST_FIELD_BYTES
    {
      if i == VALUE_FIELD {
        ValueLength(value);
      } else {
        ClaimShapeIsPlain(g, i);
        DatumLength(shapes[i], row[i], 192);
      }
    }
    RowLength(shapes, row, MOST_FIELD_BYTES, 21, 0);
  }

  lemma ClaimShapeIsPlain(g: Grammar, i: nat)
    requires i < 21 && i != VALUE_FIELD
    ensures var shape := ClaimShape(g)[i];
            && !shape.Rows? && !shape.SortedRows? && !shape.ValueField?
            && (shape.Identifier? || shape.OptionalIdentifier? ==> shape.limit <= 192)
            && (shape.Number? ==> shape.width <= 192) && (shape.Raw? ==> shape.count <= 192)
  {
  }

  lemma ValueLength(value: CapabilityValue)
    ensures WriteDatum(ValueField, ValueDatum(value)) == Ok(WriteValue(value))
  {
  }

  lemma EntityLength(g: Grammar, id: Text, generation: nat, capability: Text, claims: seq<Row>)
    requires NamesOk(g, id, capability) && 1 <= generation < TWO_TO_64
    requires forall c :: c in claims ==>
               WriteRow(ClaimShape(g), c).Ok? && |WriteRow(ClaimShape(g), c).value| <= MOST_CLAIM_BYTES
    ensures var written := WriteRow(EntityShape(g), EntityRow(id, generation, capability, claims));
            && written.Ok? && |written.value| <= 11 * MOST_FIELD_BYTES + 4 + |claims| * MOST_CLAIM_BYTES
    ensures WriteDatum(ClaimsField(g), RowsDatum(claims)).Ok?
  {
    hide WriteDatum, FitsDatum, WriteRow, ClaimShape;
    var shapes, row := EntityShape(g), EntityRow(id, generation, capability, claims);
    EntityFieldsFit(g, id, generation, capability, claims);
    ClaimsLength(g, claims);
    forall i | 0 <= i < 11
      ensures WriteDatum(shapes[i], row[i]).Ok?
      ensures |WriteDatum(shapes[i], row[i]).value| <=
              if i == CLAIMS_FIELD then 4 + |claims| * MOST_CLAIM_BYTES else MOST_FIELD_BYTES
    {
      if 7 <= i {
        ListFieldsLength(g, capability);
      } else {
        DatumLength(shapes[i], row[i], 192);
      }
    }
    RowLength(shapes, row, MOST_FIELD_BYTES, CLAIMS_FIELD, 4 + |claims| * MOST_CLAIM_BYTES);
  }

  lemma ClaimsLength(g: Grammar, claims: seq<Row>)
    requires forall c :: c in claims ==>
               WriteRow(ClaimShape(g), c).Ok? && |WriteRow(ClaimShape(g), c).value| <= MOST_CLAIM_BYTES
    ensures var written := WriteDatum(Rows(65536, ClaimShape(g)), RowsDatum(claims));
            written.Ok? && |written.value| <= 4 + |claims| * MOST_CLAIM_BYTES
  {
    hide WriteRow, ClaimShape;
    RowsLength(ClaimShape(g), claims, MOST_CLAIM_BYTES);
  }

  lemma ListFieldsLength(g: Grammar, capability: Text)
    requires |capability| <= 192
    ensures var written := WriteDatum(EntityShape(g)[7], RowsDatum([[TextDatum(capability), NumberDatum(1)]]));
            written.Ok? && |written.value| <= MOST_FIELD_BYTES
    ensures WriteDatum(EntityShape(g)[9], RowsDatum([])) == Ok(WriteU32(0))
    ensures WriteDatum(EntityShape(g)[10], RowsDatum([])) == Ok(WriteU32(0))
  {
    hide ClaimShape, LittleEndian;
    var shapes, row := [Identifier(192, g.capability), Counter()], [TextDatum(capability), NumberDatum(1)];
    assert WriteU32(0) + [] == WriteU32(0);
    assert WriteRow(shapes[1..], row[1..]).Ok? && |WriteRow(shapes[1..], row[1..]).value| == 8 by {
      assert shapes[1..] == [Counter()] && row[1..] == [NumberDatum(1)];
      assert [Counter()][1..] == [];
      assert WriteRow([], []) == Ok([]);
    }
    assert WriteRow(shapes, row).Ok? && |WriteRow(shapes, row).value| <= 204;
    assert WriteRows(shapes, [row][..0]) == Ok([]);
    assert WriteRows(shapes, [row]).Ok? && |WriteRows(shapes, [row]).value| <= 204;
  }

  // ----- stores of entities only -----

  function EntitiesOnly(entities: seq<Row>): Payload { EMPTY.(epoch := 1, entities := entities) }

  lemma MetaLength()
    ensures var written := EncodeRecord(RECORD_META, MetaShape(), MetaRow(EntitiesOnly([])));
            written.Ok? && |written.value| <= 1000
  {
    hide WriteDatum;
    var shapes, row := MetaShape(), MetaRow(EntitiesOnly([]));
    forall i | 0 <= i < 2
      ensures WriteDatum(shapes[i], row[i]).Ok? && |WriteDatum(shapes[i], row[i]).value| <= 196
    {
      Powers();
      DatumLength(shapes[i], row[i], 192);
    }
    RowLength(shapes, row, 196, 2, 0);
  }

  lemma RecordLength(kind: nat, body: seq<byte>)
    ensures |Record(kind, body)| == |body| + 5
  {
  }

  lemma {:induction false} RecordsLength(g: Grammar, entities: seq<Row>, most: nat)
    requires forall e :: e in entities ==>
               WriteRow(EntityShape(g), e).Ok? && |WriteRow(EntityShape(g), e).value| <= most
    ensures var written := EncodeRecords(RECORD_ENTITY, EntityShape(g), entities);
            written.Ok? && |written.value| <= |entities| * (most + 5)
    decreases |entities|
  {
    hide WriteRow, EntityShape, Record;
    if entities != [] {
      var n := |entities| - 1;
      RecordsLength(g, entities[..n], most);
      assert entities[n] in entities;
      RecordLength(RECORD_ENTITY, WriteRow(EntityShape(g), entities[n]).value);
      assert |entities| * (most + 5) == n * (most + 5) + (most + 5);
    }
  }

  lemma EntitiesAreWritten(g: Grammar, entities: seq<Row>, most: nat)
    requires forall e :: e in entities ==>
               WriteRow(EntityShape(g), e).Ok? && |WriteRow(EntityShape(g), e).value| <= most
    requires 1000 + |entities| * (most + 5) <= MAX_PERSISTENCE_BYTES - HEADER_BYTES
    ensures var p := EntitiesOnly(entities);
            && WriteFile(g, p).Ok? && Encode(g, p).Ok?
            && ReadFile(g, WriteFile(g, p).value) == Decode(g, Encode(g, p).value)
            && Encode(g, p).value == EncodeRecord(RECORD_META, MetaShape(), MetaRow(EntitiesOnly([]))).value
                                     + EncodeRecords(RECORD_ENTITY, EntityShape(g), entities).value
  {
    hide EncodeRecord, WriteRow, EntityShape, Decode, ReadFile, FileOf, GrantShape, FenceShape, RegistrationShape;
    var p := EntitiesOnly(entities);
    MetaLength();
    RecordsLength(g, entities, most);
    assert MetaRow(p) == MetaRow(EntitiesOnly([]));
    var body := EncodeRecords(RECORD_ENTITY, EntityShape(g), entities);
    assert [] + body.value == body.value;
    hide EncodeRecords;
    ReadingWritten(g, p);
  }

  /** A store of entities and nothing else is read back exactly when they are in bounds. */
  lemma EntitiesAreReadExactly(g: Grammar, entities: seq<Row>, most: nat)
    requires forall e :: e in entities ==>
               WriteRow(EntityShape(g), e).Ok? && |WriteRow(EntityShape(g), e).value| <= most
    requires 1000 + |entities| * (most + 5) <= MAX_PERSISTENCE_BYTES - HEADER_BYTES
    ensures WriteFile(g, EntitiesOnly(entities)).Ok?
    ensures ReadFile(g, WriteFile(g, EntitiesOnly(entities)).value) == Ok(EntitiesOnly(entities)) <==>
            |entities| <= 1_000_000 && FitsRows(EntityShape(g), entities)
  {
    hide WriteRow, EntityShape, Decode, Encode, ReadFile, WriteFile, EncodeRecord, EncodeRecords, GrantShape,
      FenceShape, RegistrationShape;
    EntitiesAreWritten(g, entities, most);
    ReadingWritten(g, EntitiesOnly(entities));
    DecodesExactlyWhenFits(g, EntitiesOnly(entities));
  }

  /** The written claims of an entity cannot be read, whatever follows them. */
  ghost predicate ClaimsFail(g: Grammar, claims: seq<Row>, error: CodecError, rest: seq<byte>) {
    var written := WriteDatum(ClaimsField(g), RowsDatum(claims));
    written.Ok? ==> ReadDatum(ClaimsField(g), written.value + rest) == Failed(error)
  }

  /** An entity whose claims cannot be read makes the whole store unreadable. */
  lemma UnreadableClaimsRefuseStore(g: Grammar, id: Text, capability: Text, claims: seq<Row>, error: CodecError)
    requires NamesOk(g, id, capability) && |claims| <= 400_000
    requires forall c :: c in claims ==>
               WriteRow(ClaimShape(g), c).Ok? && |WriteRow(ClaimShape(g), c).value| <= MOST_CLAIM_BYTES
    requires forall r :: ClaimsFail(g, claims, error, r)
    ensures var p := EntitiesOnly([EntityRow(id, 1, capability, claims)]);
            WriteFile(g, p).Ok? && ReadFile(g, WriteFile(g, p).value) == Err(error)
  {
    hide WriteRow, ReadRow, WriteDatum, ReadDatum, FitsDatum, EntityShape, ClaimsField, EncodeRecord, Encode, Decode,
      ReadFile, WriteFile;
    var shapes, row := EntityShape(g), EntityRow(id, 1, capability, claims);
    EntityLength(g, id, 1, capability, claims);
    EntityFieldsFit(g, id, 1, capability, claims);
    assert row[CLAIMS_FIELD] == RowsDatum(claims);
    forall r ensures ReadDatum(shapes[CLAIMS_FIELD], WriteDatum(shapes[CLAIMS_FIELD], row[CLAIMS_FIELD]).value + r)
                     == Failed(error) {
      assert ClaimsFail(g, claims, error, r);
    }
    RowFailsAt(shapes, row, CLAIMS_FIELD, error, []);
    EntitiesAreWritten(g, [row], 11 * MOST_FIELD_BYTES + 4 + |claims| * MOST_CLAIM_BYTES);
    OneEntityRefused(g, row, error);
  }

  lemma OneEntityRefused(g: Grammar, row: Row, error: CodecError)
    requires WriteRow(EntityShape(g), row).Ok? && |WriteRow(EntityShape(g), row).value| < TWO_TO_32
    requires ReadRow(EntityShape(g), WriteRow(EntityShape(g), row).value + []) == Failed(error)
    requires Encode(g, EntitiesOnly([row])).Ok?
    requires Encode(g, EntitiesOnly([row])).value ==
             EncodeRecord(RECORD_META, MetaShape(), MetaRow(EntitiesOnly([]))).value
             + EncodeRecords(RECORD_ENTITY, EntityShape(g), [row]).value
    ensures Decode(g, Encode(g, EntitiesOnly([row])).value) == Err(error)
  {
    hide WriteRow, ReadRow, EntityShape, MetaShape, Encode;
    var body := WriteRow(EntityShape(g), row).value;
    assert body + [] == body;
    var record := Record(RECORD_ENTITY, body);
    assert EncodeRecords(RECORD_ENTITY, EntityShape(g), [row]) == Ok(record) by {
      assert EncodeRecords(RECORD_ENTITY, EntityShape(g), [row][..0]) == Ok([]);
      assert [] + record == record;
    }
    MetaLength();
    hide EncodeRecord, EncodeRecords;
    DecodeMeta(g, EntitiesOnly([]), record);
    CutInvertsRecord(RECORD_ENTITY, body, []);
    assert record + [] == record && record != [];
    hide CutRecord, Record;
    assert DecodeRecords(g, Progress(EntitiesOnly([]), true), record) == Err(error);
  }

  // ----- what is written and not read, or read against the promise -----

  lemma ReadsInteger(i: int, rest: seq<byte>)
    requires -TWO_TO_63 <= i < TWO_TO_63
    ensures |WriteValue(IntegerValue(i))| == 9
    ensures Encodable(IntegerValue(i)) <==> -0x2000_0000_0000_0000 <= i <= 0x2000_0000_0000_0000
    ensures !Encodable(IntegerValue(i)) ==> ReadValue(WriteValue(IntegerValue(i)) + rest) == Failed(ValueOutOfRange)
  {
    hide ReadU8, WriteU8, ReadSigned, WriteSigned;
    SignedLength(i);
    assert WriteValue(IntegerValue(i)) + rest == WriteU8(2) + (WriteSigned(i) + rest);
    NumberRoundTrips(2, WriteSigned(i) + rest);
    SignedRoundTrip(i, rest);
  }

  lemma SignedLength(i: int)
    ensures |WriteSigned(i)| == 8 && |WriteU8(2)| == 1
  {
  }

  lemma ClaimUnreadable(g: Grammar, id: Text, capability: Text, i: int, rest: seq<byte>)
    requires NamesOk(g, id, capability) && -TWO_TO_63 <= i < TWO_TO_63 && !Encodable(IntegerValue(i))
    ensures var written := WriteRow(ClaimShape(g), ClaimRow(capability, IntegerValue(i)));
            written.Ok? && ReadRow(ClaimShape(g), written.value + rest) == Failed(ValueOutOfRange)
  {
    hide ClaimShape, WriteValue, ReadValue, Encodable, FitsDatum, WriteRow, ReadRow;
    ReadsInteger(i, []);
    ClaimLength(g, id, capability, IntegerValue(i));
    ClaimFieldsFit(g, id, capability, IntegerValue(i));
    forall r ensures ReadDatum(ValueField, WriteDatum(ValueField, ValueDatum(IntegerValue(i))).value + r)
                     == Failed(ValueOutOfRange) {
      ReadsInteger(i, r);
    }
    RowFailsAt(ClaimShape(g), ClaimRow(capability, IntegerValue(i)), VALUE_FIELD, ValueOutOfRange, rest);
  }

  lemma OneClaimFails(g: Grammar, claim: Row, error: CodecError, rest: seq<byte>)
    requires WriteRow(ClaimShape(g), claim).Ok?
    requires ReadRow(ClaimShape(g), WriteRow(ClaimShape(g), claim).value + rest) == Failed(error)
    ensures ClaimsFail(g, [claim], error, rest)
  {
    hide ClaimShape, ReadU32, WriteU32, WriteRow, ReadRow, WriteDatum, ReadDatum, ClaimsField;
    var body := WriteRow(ClaimShape(g), claim).value;
    assert WriteRows(ClaimShape(g), [claim]) == Ok(body) by {
      assert WriteRows(ClaimShape(g), [claim][..0]) == Ok([]);
      assert [] + body == body;
    }
    assert WriteU32(1) + body + rest == WriteU32(1) + (body + rest);
    NumberRoundTrips(1, body + rest);
    assert ReadRows(ClaimShape(g), 0, body + rest) == Parsed([], body + rest);
    ClaimsFieldMeans(g, [claim], WriteU32(1) + body + rest);
  }

  /** A registry accepts every integer its descriptor allows, and the store writes it; a store with
      a claim of integer i is read back exactly when i is within the decoder's bound, and otherwise
      refused as a whole. */
  lemma IntegerClaimIsReadExactly(g: Grammar, id: Text, capability: Text, i: int)
    requires NamesOk(g, id, capability) && -TWO_TO_63 <= i < TWO_TO_63
    ensures var p := EntitiesOnly([EntityRow(id, 1, capability, [ClaimRow(capability, IntegerValue(i))])]);
            WriteFile(g, p).Ok? && ReadFile(g, WriteFile(g, p).value) ==
                                   if -0x2000_0000_0000_0000 <= i <= 0x2000_0000_0000_0000 then Ok(p)
                                   else Err(ValueOutOfRange)
  {
    hide ClaimsFail, WriteRow, EntityShape, ClaimShape, ReadFile, WriteFile, WriteValue, FitsRow;
    var claims := [ClaimRow(capability, IntegerValue(i))];
    ReadsInteger(i, []);
    ClaimLength(g, id, capability, IntegerValue(i));
    if Encodable(IntegerValue(i)) {
      ClaimFitsExactly(g, id, capability, IntegerValue(i));
      EntityFitsExactly(g, id, 1, capability, claims);
      EntityLength(g, id, 1, capability, claims);
      FitsEach(ClaimShape(g), claims);
      FitsEach(EntityShape(g), [EntityRow(id, 1, capability, claims)]);
      EntitiesAreReadExactly(g, [EntityRow(id, 1, capability, claims)], 11 * MOST_FIELD_BYTES + 4 + MOST_CLAIM_BYTES);
    } else {
      forall r ensures ClaimsFail(g, claims, ValueOutOfRange, r) {
        ClaimUnreadable(g, id, capability, i, r);
        OneClaimFails(g, claims[0], ValueOutOfRange, r);
      }
      UnreadableClaimsRefuseStore(g, id, capability, claims, ValueOutOfRange);
    }
  }

  lemma TooManyClaimsFail(g: Grammar, claims: seq<Row>, rest: seq<byte>)
    requires 65536 < |claims| < TWO_TO_32
    ensures ClaimsFail(g, claims, PersistenceLimitExceeded, rest)
  {
    hide ClaimShape, ReadU32, WriteU32, WriteRows, WriteDatum, ReadDatum, ClaimsField;
    ClaimsFieldMeans(g, claims, []);
    var body := WriteRows(ClaimShape(g), claims);
    if body.Ok? {
      assert WriteU32(|claims|) + body.value + rest == WriteU32(|claims|) + (body.value + rest);
      NumberRoundTrips(|claims|, body.value + rest);
      ClaimsFieldMeans(g, claims, WriteU32(|claims|) + body.value + rest);
    }
  }

  lemma ModestClaimCount(g: Grammar, id: Text, capability: Text, count: nat)
    requires NamesOk(g, id, capability) && count <= 400_000
    ensures var p := EntitiesOnly([EntityRow(id, 1, capability, seq(count, i => ClaimRow(capability, Absent)))]);
            WriteFile(g, p).Ok? && ReadFile(g, WriteFile(g, p).value) ==
                                   if count <= 65536 then Ok(p) else Err(PersistenceLimitExceeded)
  {
    hide ClaimsFail, WriteRow, EntityShape, ClaimShape, ReadFile, WriteFile, FitsRow;
    var claims := seq(count, i => ClaimRow(capability, Absent));
    ClaimLength(g, id, capability, Absent);
    assert forall c :: c in claims ==> c == ClaimRow(capability, Absent);
    if count <= 65536 {
      ClaimFitsExactly(g, id, capability, Absent);
      EntityFitsExactly(g, id, 1, capability, claims);
      EntityLength(g, id, 1, capability, claims);
      FitsEach(ClaimShape(g), claims);
      FitsEach(EntityShape(g), [EntityRow(id, 1, capability, claims)]);
      EntitiesAreReadExactly(g, [EntityRow(id, 1, capability, claims)],
                             11 * MOST_FIELD_BYTES + 4 + |claims| * MOST_CLAIM_BYTES);
    } else {
      forall r ensures ClaimsFail(g, claims, PersistenceLimitExceeded, r) {
        TooManyClaimsFail(g, claims, r);
      }
      UnreadableClaimsRefuseStore(g, id, capability, claims, PersistenceLimitExceeded);
    }
  }

  /** Nothing bounds the claims of one entity when they are made or written; a written store is read
      back exactly when no entity has more than 65536 of them. (400000 surely fit into a file.) */
  lemma ClaimCountIsReadExactly(g: Grammar, id: Text, capability: Text, count: nat)
    requires NamesOk(g, id, capability)
    ensures var p := EntitiesOnly([EntityRow(id, 1, capability, seq(count, i => ClaimRow(capability, Absent)))]);
            && (count <= 400_000 ==> WriteFile(g, p).Ok?)
            && (WriteFile(g, p).Ok? ==> (ReadFile(g, WriteFile(g, p).value) == Ok(p) <==> count <= 65536))
            && (65536 < count <= 400_000 ==> ReadFile(g, WriteFile(g, p).value) == Err(PersistenceLimitExceeded))
  {
    hide WriteFile, ReadFile, Encode, FitsRow, EntityShape, ClaimRow, EntityRow;
    var claims := seq(count, i => ClaimRow(capability, Absent));
    var entity := EntityRow(id, 1, capability, claims);
    if count <= 400_000 {
      ModestClaimCount(g, id, capability, count);
    } else if WriteFile(g, EntitiesOnly([entity])).Ok? {
      EntityFitsExactly(g, id, 1, capability, claims);
      FitsEach(EntityShape(g), [entity]);
      assert entity in [entity];
      FileRoundTripsExactly(g, EntitiesOnly([entity]));
    }
  }

  /** Duplicates are read back although they are promised to be rejected: two records of one entity
      that disagree about its generation, the first with two claims of one evidence identifier that
      disagree about the value. */
  lemma DuplicatesAreRead(g: Grammar, id: Text, capability: Text)
    requires NamesOk(g, id, capability)
    ensures var yes, no := ClaimRow(capability, BooleanValue(true)), ClaimRow(capability, BooleanValue(false));
            var p := EntitiesOnly([EntityRow(id, 1, capability, [yes, no]), EntityRow(id, 2, capability, [])]);
            && yes[1] == no[1] && yes != no
            && KeyOf(p.entities[0]) == KeyOf(p.entities[1]) && p.entities[0] != p.entities[1]
            && WriteFile(g, p).Ok? && ReadFile(g, WriteFile(g, p).value) == Ok(p)
  {
    hide WriteRow, EntityShape, ClaimShape, ReadFile, WriteFile, FitsRow, FitsRows;
    var yes, no := ClaimRow(capability, BooleanValue(true)), ClaimRow(capability, BooleanValue(false));
    var first, second := EntityRow(id, 1, capability, [yes, no]), EntityRow(id, 2, capability, []);
    assert yes[VALUE_FIELD] != no[VALUE_FIELD] && first[1] != second[1];
    BooleanLength();
    ClaimLength(g, id, capability, BooleanValue(true));
    ClaimLength(g, id, capability, BooleanValue(false));
    ClaimFitsExactly(g, id, capability, BooleanValue(true));
    ClaimFitsExactly(g, id, capability, BooleanValue(false));
    FitsEach(ClaimShape(g), [yes, no]);
    FitsEach(ClaimShape(g), []);
    EntityFitsExactly(g, id, 1, capability, [yes, no]);
    EntityFitsExactly(g, id, 2, capability, []);
    EntityLength(g, id, 1, capability, [yes, no]);
    EntityLength(g, id, 2, capability, []);
    FitsEach(EntityShape(g), [first, second]);
    EntitiesAreReadExactly(g, [first, second], 11 * MOST_FIELD_BYTES + 4 + 2 * MOST_CLAIM_BYTES);
  }

  lemma BooleanLength()
    ensures |WriteValue(BooleanValue(true))| == 2 && |WriteValue(BooleanValue(false))| == 2
  {
  }

  /** The failing stores exist: names of one letter satisfy the plainest grammar. */
  lemma SomeStoresFail() returns (g: Grammar, unread: Payload, crowded: Payload, doubled: Payload)
    ensures WriteFile(g, unread).Ok? && ReadFile(g, WriteFile(g, unread).value) == Err(ValueOutOfRange)
    ensures WriteFile(g, crowded).Ok? && ReadFile(g, WriteFile(g, crowded).value) == Err(PersistenceLimitExceeded)
    ensures |doubled.entities| == 2 && KeyOf(doubled.entities[0]) == KeyOf(doubled.entities[1])
    ensures doubled.entities[0] != doubled.entities[1]
    ensures WriteFile(g, doubled).Ok? && ReadFile(g, WriteFile(g, doubled).value) == Ok(doubled)
  {
    hide WriteFile, ReadFile, ControlFree, NameRule, Letters, ClaimRow, EntityRow;
    var name := Letters(1);
    g := Grammar(NameRule, NameRule, NameRule);
    LettersAreNames(1);
    unread := EntitiesOnly([EntityRow(name, 1, name, [ClaimRow(name, IntegerValue(-0x4000_0000_0000_0000))])]);
    IntegerClaimIsReadExactly(g, name, name, -0x4000_0000_0000_0000);
    crowded := EntitiesOnly([EntityRow(name, 1, name, seq(65537, i => ClaimRow(name, Absent)))]);
    ClaimCountIsReadExactly(g, name, name, 65537);
    var yes, no := ClaimRow(name, BooleanValue(true)), ClaimRow(name, BooleanValue(false));
    doubled := EntitiesOnly([EntityRow(name, 1, name, [yes, no]), EntityRow(name, 2, name, [])]);
    DuplicatesAreRead(g, name, name);
  }
}
