/** The durable store payload: a sequence of typed, length-prefixed records. The
    encoder patches each length back into the bytes it has already written; the
    decoder walks the remaining bytes record by record. */
module StorePayload {
  import opened Values
  import opened Bytes
  import opened ValueCodec
  import opened StoreRows

  /** The rules of the composite identifiers, which are not modelled further. */
  datatype Grammar = Grammar(capability: Text -> bool, namespace: Text -> bool, entity: Text -> bool)

  const RECORD_META: nat := 1
  const RECORD_AUTHORITY: nat := 2
  const RECORD_FENCE: nat := 3
  const RECORD_ENTITY: nat := 4
  const RECORD_REGISTRATION: nat := 5

  const MAX_AUTHORITIES: nat := 4096
  const MAX_FENCES: nat := 65536
  const MAX_REGISTRATIONS: nat := 4096
  const MAX_ENTITIES: nat := 1_000_000

  // ----- identifier rules -----

  predicate HexDigitOrDash(b: byte) { (0x30 <= b <= 0x39) || (0x61 <= b <= 0x66) || b == 0x2D }

  predicate HexToken(text: Text, least: nat, limit: nat) {
    && least <= |text| <= limit && text != []
    && text[0] != 0x2D && text[|text| - 1] != 0x2D
    && (forall i :: 0 <= i < |text| ==> HexDigitOrDash(text[i]))
    && forall i :: 0 < i < |text| ==> !(text[i - 1] == 0x2D && text[i] == 0x2D)
  }

  predicate NameRule(text: Text) { LowerToken(text, 96) }
  predicate BootRule(text: Text) { HexToken(text, 8, 64) }
  predicate EvidenceIdRule(text: Text) { HexToken(text, 32, 32) }
  predicate AttemptRule(text: Text) { PrintableToken(text, 96) }
  predicate VersionRule(text: Text) { PrintableToken(text, 64) }
  predicate ReasonRule(text: Text) { PrintableToken(text, 192) }

  // ----- the fields of every record, in order -----

  function Counter(): Shape { Number(8, 0, 0xFFFF_FFFF_FFFF_FFFF) }

  function Choice(count: nat): Shape { Number(1, 0, if count == 0 then 0 else count - 1) }

  function Name(): Shape { Identifier(96, NameRule) }

  function Boot(): Shape { Identifier(64, BootRule) }

  function Reason(): Shape { OptionalIdentifier(192, ReasonRule) }

  function MetaShape(): seq<Shape> { [Counter(), Counter()] }

  function GrantShape(g: Grammar): seq<Shape> {
    [Name(), Rows(16, [Number(1, 1, 11)]), Rows(64, [Identifier(192, g.namespace)]), Number(1, 0, 255), Flag, Flag,
     Choice(7), Number(4, 0, 4096), Reason(), Rows(4096, [Name()])]
  }

  function FenceShape(): seq<Shape> { [Boot(), OptionalIdentifier(96, NameRule), Reason()] }

  function RegistrationShape(): seq<Shape> { [Name(), Boot(), Name()] }

  function ClaimShape(g: Grammar): seq<Shape> {
    [Identifier(192, g.capability), Identifier(32, EvidenceIdRule), Name(), Name(), Name(), Boot(),
     Identifier(96, AttemptRule), Identifier(96, AttemptRule), Counter(), Counter(), Counter(),
     Choice(7), Choice(10), Choice(2), Choice(2), Choice(5), Choice(5), ValueField,
     OptionalIdentifier(64, VersionRule), OptionalIdentifier(64, VersionRule), Reason()]
  }

  function EntityShape(g: Grammar): seq<Shape> {
    [Identifier(160, g.entity), Number(8, 1, 0xFFFF_FFFF_FFFF_FFFF), Counter(), Flag, Counter(), Flag, Reason(),
     SortedRows(4096, [Identifier(192, g.capability), Counter()]),
     Rows(65536, ClaimShape(g)),
     Rows(65536, [Name(), Boot(), Counter()]),
     Rows(8, [Counter(), Counter(), Raw(32), Counter(), Counter(), Counter(), Reason()])]
  }

  datatype Payload = Payload(
    epoch: nat, registryGeneration: nat, authorities: seq<Row>, fences: seq<Row>, registrations: seq<Row>,
    entities: seq<Row>)

  const EMPTY: Payload := Payload(0, 0, [], [], [], [])

  /** What Save builds within the decoder's bounds. */
  predicate Fits(g: Grammar, p: Payload) {
    && p.epoch < TWO_TO_64 && p.registryGeneration < TWO_TO_64
    && |p.authorities| <= MAX_AUTHORITIES && FitsRows(GrantShape(g), p.authorities)
    && |p.fences| <= MAX_FENCES && FitsRows(FenceShape(), p.fences)
    && |p.registrations| <= MAX_REGISTRATIONS && FitsRows(RegistrationShape(), p.registrations)
    && |p.entities| <= MAX_ENTITIES && FitsRows(EntityShape(g), p.entities)
  }

  // ----- specification of encoding -----

  /** Type, length and body; the length field is 32 bits wide. */
  function Record(kind: nat, body: seq<byte>): seq<byte> {
    WriteU8(kind) + WriteU32(|body| % TWO_TO_32) + body
  }

  function EncodeRecord(kind: nat, shapes: seq<Shape>, row: Row): Result<seq<byte>> {
    match WriteRow(shapes, row)
    case Err(error) => Err(error)
    case Ok(body) => Ok(Record(kind, body))
  }

  function EncodeRecords(kind: nat, shapes: seq<Shape>, rows: seq<Row>): Result<seq<byte>> {
    if rows == [] then Ok([])
    else Join(EncodeRecords(kind, shapes, rows[..|rows| - 1]), EncodeRecord(kind, shapes, rows[|rows| - 1]))
  }

  function MetaRow(p: Payload): Row { [NumberDatum(p.epoch), NumberDatum(p.registryGeneration)] }

  function Encode(g: Grammar, p: Payload): Result<seq<byte>> {
    Join(EncodeRecord(RECORD_META, MetaShape(), MetaRow(p)),
    Join(EncodeRecords(RECORD_AUTHORITY, GrantShape(g), p.authorities),
    Join(EncodeRecords(RECORD_FENCE, FenceShape(), p.fences),
    Join(EncodeRecords(RECORD_REGISTRATION, RegistrationShape(), p.registrations),
         EncodeRecords(RECORD_ENTITY, EntityShape(g), p.entities)))))
  }

  // ----- specification of decoding -----

  datatype Progress = Progress(payload: Payload, sawMeta: bool)

  /** A record body must be used up exactly. */
  function ReadWhole(shapes: seq<Shape>, body: seq<byte>): Result<Row> {
    match ReadRow(shapes, body)
    case Failed(error) => Err(error)
    case Parsed(row, rest) => if rest != [] then Err(FrameTrailingBytes) else Ok(row)
  }

  function AddMeta(p: Progress, body: seq<byte>): Result<Progress> {
    if p.sawMeta then Err(PersistenceDuplicateRecord)
    else
      match ReadWhole(MetaShape(), body)
      case Err(error) => Err(error)
      case Ok(row) =>
        if |row| == 2 && row[0].NumberDatum? && row[1].NumberDatum? then
          Ok(Progress(p.payload.(epoch := row[0].number, registryGeneration := row[1].number), true))
        else Err(PersistenceCorrupt)
  }

  function AddRecord(g: Grammar, p: Progress, kind: nat, body: seq<byte>): Result<Progress> {
    if kind == RECORD_META then AddMeta(p, body)
    else if kind == RECORD_AUTHORITY then
      if |p.payload.authorities| >= MAX_AUTHORITIES then Err(PersistenceLimitExceeded)
      else
        match ReadWhole(GrantShape(g), body)
        case Err(error) => Err(error)
        case Ok(row) => Ok(p.(payload := p.payload.(authorities := p.payload.authorities + [row])))
    else if kind == RECORD_FENCE then
      if |p.payload.fences| >= MAX_FENCES then Err(PersistenceLimitExceeded)
      else
        match ReadWhole(FenceShape(), body)
        case Err(error) => Err(error)
        case Ok(row) => Ok(p.(payload := p.payload.(fences := p.payload.fences + [row])))
    else if kind == RECORD_REGISTRATION then
      if |p.payload.registrations| >= MAX_REGISTRATIONS then Err(PersistenceLimitExceeded)
      else
        match ReadWhole(RegistrationShape(), body)
        case Err(error) => Err(error)
        case Ok(row) => Ok(p.(payload := p.payload.(registrations := p.payload.registrations + [row])))
    else if kind == RECORD_ENTITY then
      if |p.payload.entities| >= MAX_ENTITIES then Err(PersistenceLimitExceeded)
      else
        match ReadWhole(EntityShape(g), body)
        case Err(error) => Err(error)
        case Ok(row) => Ok(p.(payload := p.payload.(entities := p.payload.entities + [row])))
    else Err(PersistenceCorrupt)
  }

  datatype Cut = Cut(kind: nat, body: seq<byte>)

  /** Splits one record off the remaining bytes. */
  function CutRecord(remaining: seq<byte>): (cut: Parse<Cut>)
    ensures cut.Parsed? ==> |cut.rest| < |remaining|
  {
    match ReadU8(remaining)
    case Failed(error) => Failed(error)
    case Parsed(kind, a) =>
      match ReadU32(a)
      case Failed(error) => Failed(error)
      case Parsed(length, b) =>
        if length > |b| then Failed(PersistenceCorrupt) else Parsed(Cut(kind, b[..length]), b[length..])
  }

  function DecodeRecords(g: Grammar, p: Progress, remaining: seq<byte>): Result<Progress>
    decreases |remaining|
  {
    if remaining == [] then Ok(p)
    else
      match CutRecord(remaining)
      case Failed(error) => Err(error)
      case Parsed(cut, rest) =>
        match AddRecord(g, p, cut.kind, cut.body)
        case Err(error) => Err(error)
        case Ok(next) => DecodeRecords(g, next, rest)
  }

  function Decode(g: Grammar, bytes: seq<byte>): Result<Payload> {
    match DecodeRecords(g, Progress(EMPTY, false), bytes)
    case Err(error) => Err(error)
    case Ok(p) => if p.sawMeta then Ok(p.payload) else Err(PersistenceCorrupt)
  }

  // ----- decoding inverts encoding -----

  lemma CutInvertsRecord(kind: nat, body: seq<byte>, rest: seq<byte>)
    requires kind < 256 && |body| < TWO_TO_32
    ensures CutRecord(Record(kind, body) + rest) == Parsed(Cut(kind, body), rest)
  {
    hide ReadU8, WriteU8, ReadU32, WriteU32;
    assert Record(kind, body) + rest == WriteU8(kind) + (WriteU32(|body|) + (body + rest));
    NumberRoundTrips(kind, WriteU32(|body|) + (body + rest));
    NumberRoundTrips(|body|, body + rest);
    assert (body + rest)[..|body|] == body && (body + rest)[|body|..] == rest;
  }

  lemma WholeRoundTrip(shapes: seq<Shape>, row: Row)
    requires FitsRow(shapes, row)
    ensures WriteRow(shapes, row).Ok? && ReadWhole(shapes, WriteRow(shapes, row).value) == Ok(row)
  {
    hide ReadRow, WriteRow, FitsRow;
    RowRoundTrip(shapes, row, []);
    assert WriteRow(shapes, row).value + [] == WriteRow(shapes, row).value;
  }

  lemma DecodeOne(g: Grammar, p: Progress, next: Progress, kind: nat, body: seq<byte>, rest: seq<byte>)
    requires kind < 256 && |body| < TWO_TO_32 && AddRecord(g, p, kind, body) == Ok(next)
    ensures DecodeRecords(g, p, Record(kind, body) + rest) == DecodeRecords(g, next, rest)
  {
    hide AddRecord, CutRecord;
    CutInvertsRecord(kind, body, rest);
    assert Record(kind, body) + rest != [];
  }

  /** The lists a record kind other than the meta record is added to. */
  function Listed(p: Payload, kind: nat): seq<Row> {
    if kind == RECORD_AUTHORITY then p.authorities
    else if kind == RECORD_FENCE then p.fences
    else if kind == RECORD_REGISTRATION then p.registrations
    else p.entities
  }

  function WithListed(p: Payload, kind: nat, rows: seq<Row>): Payload {
    if kind == RECORD_AUTHORITY then p.(authorities := rows)
    else if kind == RECORD_FENCE then p.(fences := rows)
    else if kind == RECORD_REGISTRATION then p.(registrations := rows)
    else p.(entities := rows)
  }

  function ShapeOf(g: Grammar, kind: nat): seq<Shape> {
    if kind == RECORD_AUTHORITY then GrantShape(g)
    else if kind == RECORD_FENCE then FenceShape()
    else if kind == RECORD_REGISTRATION then RegistrationShape()
    else EntityShape(g)
  }

  function BoundOf(kind: nat): nat {
    if kind == RECORD_AUTHORITY then MAX_AUTHORITIES
    else if kind == RECORD_FENCE then MAX_FENCES
    else if kind == RECORD_REGISTRATION then MAX_REGISTRATIONS
    else MAX_ENTITIES
  }

  predicate ListKind(kind: nat) { RECORD_AUTHORITY <= kind <= RECORD_REGISTRATION }

  lemma AddListed(g: Grammar, p: Progress, kind: nat, body: seq<byte>)
    requires ListKind(kind)
    ensures AddRecord(g, p, kind, body) ==
            if |Listed(p.payload, kind)| >= BoundOf(kind) then Err(PersistenceLimitExceeded)
            else if ReadWhole(ShapeOf(g, kind), body).Err? then Err(ReadWhole(ShapeOf(g, kind), body).error)
            else Ok(p.(payload := WithListed(p.payload, kind,
                                             Listed(p.payload, kind) + [ReadWhole(ShapeOf(g, kind), body).value])))
  {
    hide ReadWhole, GrantShape, FenceShape, RegistrationShape, EntityShape;
  }

  /** Every record of an encoded list is decoded onto the end of its list. */
  lemma {:induction false} DecodeListed(g: Grammar, p: Progress, kind: nat, rows: seq<Row>, rest: seq<byte>)
    requires ListKind(kind) && FitsRows(ShapeOf(g, kind), rows)
    requires |Listed(p.payload, kind)| + |rows| <= BoundOf(kind)
    requires EncodeRecords(kind, ShapeOf(g, kind), rows).Ok?
    requires |EncodeRecords(kind, ShapeOf(g, kind), rows).value| < TWO_TO_32
    ensures DecodeRecords(g, p, EncodeRecords(kind, ShapeOf(g, kind), rows).value + rest) ==
            DecodeRecords(g, p.(payload := WithListed(p.payload, kind, Listed(p.payload, kind) + rows)), rest)
    decreases |rows|
  {
    hide DecodeRecords, AddRecord, FitsRow, WriteRow, ReadWhole, ShapeOf, BoundOf;
    if rows == [] {
      assert [] + rest == rest;
      assert Listed(p.payload, kind) + [] == Listed(p.payload, kind);
    } else {
      var n := |rows| - 1;
      var front := EncodeRecords(kind, ShapeOf(g, kind), rows[..n]).value;
      var body := WriteRow(ShapeOf(g, kind), rows[n]).value;
      var last := Record(kind, body);
      assert front + last + rest == front + (last + rest);
      DecodeListed(g, p, kind, rows[..n], last + rest);
      var before := p.(payload := WithListed(p.payload, kind, Listed(p.payload, kind) + rows[..n]));
      var after := p.(payload := WithListed(p.payload, kind, Listed(p.payload, kind) + rows));
      WholeRoundTrip(ShapeOf(g, kind), rows[n]);
      AddListed(g, before, kind, body);
      assert Listed(p.payload, kind) + rows[..n] + [rows[n]] == Listed(p.payload, kind) + rows;
      DecodeOne(g, before, after, kind, body, rest);
    }
  }

  lemma {:induction false} RecordsEncode(kind: nat, shapes: seq<Shape>, rows: seq<Row>)
    requires FitsRows(shapes, rows)
    ensures EncodeRecords(kind, shapes, rows).Ok?
    decreases |rows|
  {
    hide FitsRow, WriteRow;
    if rows != [] {
      RecordsEncode(kind, shapes, rows[..|rows| - 1]);
      RowRoundTrip(shapes, rows[|rows| - 1], []);
    }
  }

  lemma MetaFits(p: Payload)
    requires p.epoch < TWO_TO_64 && p.registryGeneration < TWO_TO_64
    ensures FitsRow(MetaShape(), MetaRow(p))
  {
  }

  lemma DecodeMeta(g: Grammar, p: Payload, rest: seq<byte>)
    requires p.epoch < TWO_TO_64 && p.registryGeneration < TWO_TO_64
    ensures EncodeRecord(RECORD_META, MetaShape(), MetaRow(p)).Ok?
    ensures |EncodeRecord(RECORD_META, MetaShape(), MetaRow(p)).value| < TWO_TO_32 ==>
              DecodeRecords(g, Progress(EMPTY, false),
                            EncodeRecord(RECORD_META, MetaShape(), MetaRow(p)).value + rest) ==
              DecodeRecords(g, Progress(EMPTY.(epoch := p.epoch, registryGeneration := p.registryGeneration), true),
                            rest)
  {
    hide DecodeRecords, WriteRow, ReadWhole, MetaShape;
    MetaFits(p);
    WholeRoundTrip(MetaShape(), MetaRow(p));
    var body := WriteRow(MetaShape(), MetaRow(p)).value;
    var next := Progress(EMPTY.(epoch := p.epoch, registryGeneration := p.registryGeneration), true);
    if |Record(RECORD_META, body)| < TWO_TO_32 {
      assert AddRecord(g, Progress(EMPTY, false), RECORD_META, body) == Ok(next);
      DecodeOne(g, Progress(EMPTY, false), next, RECORD_META, body, rest);
    }
  }

  /** Every payload that fits the decoder's bounds is encoded, and decoding gives it back. */
  lemma PayloadRoundTrip(g: Grammar, p: Payload)
    requires Fits(g, p)
    ensures Encode(g, p).Ok?
    ensures |Encode(g, p).value| < TWO_TO_32 ==> Decode(g, Encode(g, p).value) == Ok(p)
  {
    hide DecodeRecords, EncodeRecords, EncodeRecord, FitsRows, GrantShape, FenceShape, RegistrationShape, EntityShape,
      MetaShape;
    RecordsEncode(RECORD_AUTHORITY, GrantShape(g), p.authorities);
    RecordsEncode(RECORD_FENCE, FenceShape(), p.fences);
    RecordsEncode(RECORD_REGISTRATION, RegistrationShape(), p.registrations);
    RecordsEncode(RECORD_ENTITY, EntityShape(g), p.entities);
    var a := EncodeRecords(RECORD_AUTHORITY, GrantShape(g), p.authorities).value;
    var f := EncodeRecords(RECORD_FENCE, FenceShape(), p.fences).value;
    var r := EncodeRecords(RECORD_REGISTRATION, RegistrationShape(), p.registrations).value;
    var e := EncodeRecords(RECORD_ENTITY, EntityShape(g), p.entities).value;
    DecodeMeta(g, p, a + (f + (r + e)));
    var start := Progress(EMPTY.(epoch := p.epoch, registryGeneration := p.registryGeneration), true);
    if |Encode(g, p).value| < TWO_TO_32 {
      assert [] + p.authorities == p.authorities && [] + p.fences == p.fences;
      assert [] + p.registrations == p.registrations && [] + p.entities == p.entities;
      DecodeListed(g, start, RECORD_AUTHORITY, p.authorities, f + (r + e));
      var s1 := start.(payload := start.payload.(authorities := p.authorities));
      DecodeListed(g, s1, RECORD_FENCE, p.fences, r + e);
      var s2 := s1.(payload := s1.payload.(fences := p.fences));
      DecodeListed(g, s2, RECORD_REGISTRATION, p.registrations, e);
      var s3 := s2.(payload := s2.payload.(registrations := p.registrations));
      DecodeListed(g, s3, RECORD_ENTITY, p.entities, []);
      assert e + [] == e;
      Finished(g, s3.(payload := p));
    }
  }

  lemma Finished(g: Grammar, p: Progress)
    ensures DecodeRecords(g, p, []) == Ok(p)
  {
  }

  // ----- everything decoded fits -----

  lemma ClaimShapeOk(g: Grammar)
    ensures ShapesOk(ClaimShape(g))
  {
    EachShapeOk(ClaimShape(g));
  }

  lemma GrantShapeOk(g: Grammar)
    ensures ShapesOk(GrantShape(g))
  {
    EachShapeOk([Number(1, 1, 11)]);
    EachShapeOk([Identifier(192, g.namespace)]);
    EachShapeOk([Name()]);
    EachShapeOk(GrantShape(g));
  }

  lemma EntityShapeOk(g: Grammar)
    ensures ShapesOk(EntityShape(g))
  {
    hide ClaimShape, ShapesOk;
    ClaimShapeOk(g);
    EachShapeOk([Identifier(192, g.capability), Counter()]);
    EachShapeOk([Name(), Boot(), Counter()]);
    EachShapeOk([Counter(), Counter(), Raw(32), Counter(), Counter(), Counter(), Reason()]);
    EachShapeOk(EntityShape(g));
  }

  lemma ShapesAreOk(g: Grammar)
    ensures ShapesOk(GrantShape(g)) && ShapesOk(FenceShape()) && ShapesOk(RegistrationShape())
            && ShapesOk(EntityShape(g))
  {
    GrantShapeOk(g);
    EntityShapeOk(g);
    hide GrantShape, EntityShape;
    EachShapeOk(FenceShape());
    EachShapeOk(RegistrationShape());
  }

  lemma {:induction false} EachShapeOk(shapes: seq<Shape>)
    ensures ShapesOk(shapes) <==> forall i :: 0 <= i < |shapes| ==> ShapeOk(shapes[i])
    decreases |shapes|
  {
    hide ShapeOk;
    if shapes != [] {
      EachShapeOk(shapes[1..]);
    }
  }

  lemma WholeFits(shapes: seq<Shape>, body: seq<byte>)
    requires ShapesOk(shapes) && ReadWhole(shapes, body).Ok?
    ensures FitsRow(shapes, ReadWhole(shapes, body).value)
  {
    ReadRowFits(shapes, body);
  }

  lemma AppendFits(shapes: seq<Shape>, rows: seq<Row>, row: Row)
    requires FitsRows(shapes, rows) && FitsRow(shapes, row)
    ensures FitsRows(shapes, rows + [row])
  {
  }

  lemma MetaFitsBack(p: Progress, body: seq<byte>)
    requires AddMeta(p, body).Ok?
    ensures AddMeta(p, body).value.payload.epoch < TWO_TO_64
            && AddMeta(p, body).value.payload.registryGeneration < TWO_TO_64
  {
  }

  lemma AddKeepsFit(g: Grammar, p: Progress, kind: nat, body: seq<byte>)
    requires Fits(g, p.payload) && AddRecord(g, p, kind, body).Ok?
    ensures Fits(g, AddRecord(g, p, kind, body).value.payload)
  {
    hide GrantShape, FenceShape, RegistrationShape, EntityShape, FitsRows, FitsRow, ReadWhole, ShapesOk;
    if kind == RECORD_META {
      MetaFitsBack(p, body);
    } else {
      ShapesAreOk(g);
      AddListed(g, p, kind, body);
      var row := ReadWhole(ShapeOf(g, kind), body).value;
      WholeFits(ShapeOf(g, kind), body);
      AppendFits(ShapeOf(g, kind), Listed(p.payload, kind), row);
    }
  }

  lemma {:induction false} DecodingKeepsFit(g: Grammar, p: Progress, remaining: seq<byte>)
    requires Fits(g, p.payload) && DecodeRecords(g, p, remaining).Ok?
    ensures Fits(g, DecodeRecords(g, p, remaining).value.payload)
    decreases |remaining|
  {
    hide AddRecord, CutRecord, Fits;
    if remaining != [] {
      var cut := CutRecord(remaining);
      AddKeepsFit(g, p, cut.value.kind, cut.value.body);
      DecodingKeepsFit(g, AddRecord(g, p, cut.value.kind, cut.value.body).value, cut.rest);
    }
  }

  /** Whatever the decoder accepts fits its bounds, so encoding and decoding it again is the identity. */
  lemma DecodedFits(g: Grammar, bytes: seq<byte>)
    requires Decode(g, bytes).Ok?
    ensures Fits(g, Decode(g, bytes).value)
  {
    hide DecodeRecords;
    assert Fits(g, EMPTY);
    DecodingKeepsFit(g, Progress(EMPTY, false), bytes);
  }

  /** An encoded payload is decoded to itself exactly when it is in the decoder's bounds. */
  lemma DecodesExactlyWhenFits(g: Grammar, p: Payload)
    requires Encode(g, p).Ok? && |Encode(g, p).value| < TWO_TO_32
    ensures Decode(g, Encode(g, p).value) == Ok(p) <==> Fits(g, p)
  {
    hide Encode, Decode, Fits;
    if Fits(g, p) {
      PayloadRoundTrip(g, p);
    }
    if Decode(g, Encode(g, p).value) == Ok(p) {
      DecodedFits(g, Encode(g, p).value);
    }
  }

  /** Being in bounds is a matter of each record alone: one more entity is decoded exactly when its
      own record is in bounds, whichever entities, its own identifier included, are stored already. */
  lemma OneMoreEntityDecodesExactly(g: Grammar, p: Payload, entity: Row)
    requires Fits(g, p) && |p.entities| < MAX_ENTITIES
    requires var more := p.(entities := p.entities + [entity]);
             Encode(g, more).Ok? && |Encode(g, more).value| < TWO_TO_32
    ensures var more := p.(entities := p.entities + [entity]);
            Decode(g, Encode(g, more).value) == Ok(more) <==> FitsRow(EntityShape(g), entity)
  {
    hide Encode, Decode, FitsRow, EntityShape, GrantShape, FenceShape, RegistrationShape;
    DecodesExactlyWhenFits(g, p.(entities := p.entities + [entity]));
    assert (p.entities + [entity])[..|p.entities|] == p.entities;
  }

  // ----- the encoder and the decoder as they run -----

  lemma FourDigits(n: nat)
    ensures LittleEndian(n, 4) == [n % 256, n / 256 % 256, n / 256 / 256 % 256, n / 256 / 256 / 256 % 256]
  {
    var a := n / 256;
    var b := a / 256;
    var c := b / 256;
    assert LittleEndian(c, 1) == [c % 256] + LittleEndian(c / 256, 0);
    assert LittleEndian(b, 2) == [b % 256] + LittleEndian(c, 1);
    assert LittleEndian(a, 3) == [a % 256] + LittleEndian(b, 2);
    assert LittleEndian(n, 4) == [n % 256] + LittleEndian(a, 3);
  }

  lemma WrappedDigits(size: nat)
    ensures var n := size % TWO_TO_32;
            && n % 256 == size % 256 && n / 256 % 256 == size / 256 % 256
            && n / 256 / 256 % 256 == size / 256 / 256 % 256
            && n / 256 / 256 / 256 % 256 == size / 256 / 256 / 256 % 256
  {
    var n, q := size % TWO_TO_32, size / TWO_TO_32;
    assert size == n + q * 0x1_0000_0000;
    var a := n / 256 + q * 0x100_0000;
    assert size / 256 == a;
    var b := n / 256 / 256 + q * 0x1_0000;
    assert a / 256 == b;
    assert b / 256 == n / 256 / 256 / 256 + q * 0x100;
  }

  lemma LengthBytes(size: nat)
    ensures WriteU32(size % TWO_TO_32) ==
            [size % 256, size / 256 % 256, size / 256 / 256 % 256, size / 256 / 256 / 256 % 256]
  {
    hide LittleEndian;
    FourDigits(size % TWO_TO_32);
    WrappedDigits(size);
  }

  lemma OneByte(kind: nat)
    requires kind < 256
    ensures WriteU8(kind) == [kind]
  {
  }

  /** Writes the type, leaves room for the length, writes the body, and then patches the length in. */
  method AppendRecord(bytes: seq<byte>, kind: nat, shapes: seq<Shape>, row: Row) returns (appended: Result<seq<byte>>)
    requires kind < 256
    ensures appended == Join(Ok(bytes), EncodeRecord(kind, shapes, row))
  {
    hide WriteRow, LittleEndian;
    OneByte(kind);
    var out := bytes + [kind];
    var offset := |out|;
    out := out + [0, 0, 0, 0];
    var written := WriteRow(shapes, row);
    if written.Err? {
      return Err(written.error);
    }
    var body := written.value;
    out := out + body;
    var size := |out| - offset - 4;
    out := out[offset := size % 256];
    out := out[offset + 1 := size / 256 % 256];
    out := out[offset + 2 := size / 256 / 256 % 256];
    out := out[offset + 3 := size / 256 / 256 / 256 % 256];
    LengthBytes(|body|);
    assert out == bytes + Record(kind, body);
    return Ok(out);
  }

  method AppendRecords(bytes: seq<byte>, kind: nat, shapes: seq<Shape>, rows: seq<Row>)
    returns (appended: Result<seq<byte>>)
    requires kind < 256
    ensures appended == Join(Ok(bytes), EncodeRecords(kind, shapes, rows))
  {
    hide EncodeRecord;
    var out := bytes;
    assert bytes + [] == bytes;
    for k := 0 to |rows|
      invariant Ok(out) == Join(Ok(bytes), EncodeRecords(kind, shapes, rows[..k]))
    {
      assert rows[..k + 1][..k] == rows[..k];
      var next := AppendRecord(out, kind, shapes, rows[k]);
      if next.Err? {
        ErrorSticks(kind, shapes, rows, k + 1);
        return next;
      }
      ghost var front := EncodeRecords(kind, shapes, rows[..k]).value;
      ghost var last := EncodeRecord(kind, shapes, rows[k]).value;
      assert bytes + front + last == bytes + (front + last);
      out := next.value;
    }
    assert rows[..|rows|] == rows;
    return Ok(out);
  }

  lemma {:induction false} ErrorSticks(kind: nat, shapes: seq<Shape>, rows: seq<Row>, k: nat)
    requires k <= |rows| && EncodeRecords(kind, shapes, rows[..k]).Err?
    ensures EncodeRecords(kind, shapes, rows) == EncodeRecords(kind, shapes, rows[..k])
    decreases |rows|
  {
    hide EncodeRecord;
    if k == |rows| {
      assert rows[..k] == rows;
    } else {
      assert rows[..|rows| - 1][..k] == rows[..k];
      ErrorSticks(kind, shapes, rows[..|rows| - 1], k);
    }
  }

  lemma JoinAssociates(a: Result<seq<byte>>, b: Result<seq<byte>>, c: Result<seq<byte>>)
    ensures Join(Join(a, b), c) == Join(a, Join(b, c))
  {
    if a.Ok? && b.Ok? && c.Ok? {
      assert a.value + b.value + c.value == a.value + (b.value + c.value);
    }
  }

  method EncodePayload(g: Grammar, p: Payload) returns (encoded: Result<seq<byte>>)
    ensures encoded == Encode(g, p)
  {
    hide EncodeRecord, EncodeRecords, GrantShape, FenceShape, RegistrationShape, EntityShape, Join;
    var meta := EncodeRecord(RECORD_META, MetaShape(), MetaRow(p));
    ghost var a := EncodeRecords(RECORD_AUTHORITY, GrantShape(g), p.authorities);
    ghost var f := EncodeRecords(RECORD_FENCE, FenceShape(), p.fences);
    ghost var r := EncodeRecords(RECORD_REGISTRATION, RegistrationShape(), p.registrations);
    ghost var e := EncodeRecords(RECORD_ENTITY, EntityShape(g), p.entities);
    JoinAssociates(f, r, e);
    JoinAssociates(a, f, Join(r, e));
    JoinAssociates(meta, a, Join(f, Join(r, e)));
    JoinAssociates(Join(meta, a), f, Join(r, e));
    JoinAssociates(Join(Join(meta, a), f), r, e);
    JoinFacts();
    encoded := AppendRecord([], RECORD_META, MetaShape(), MetaRow(p));
    if encoded.Err? {
      return;
    }
    encoded := AppendRecords(encoded.value, RECORD_AUTHORITY, GrantShape(g), p.authorities);
    if encoded.Err? {
      return;
    }
    encoded := AppendRecords(encoded.value, RECORD_FENCE, FenceShape(), p.fences);
    if encoded.Err? {
      return;
    }
    encoded := AppendRecords(encoded.value, RECORD_REGISTRATION, RegistrationShape(), p.registrations);
    if encoded.Err? {
      return;
    }
    encoded := AppendRecords(encoded.value, RECORD_ENTITY, EntityShape(g), p.entities);
  }

  lemma JoinFacts()
    ensures forall a: Result<seq<byte>>, b :: a.Err? ==> Join(a, b) == a
    ensures forall b: Result<seq<byte>> :: Join(Ok([]), b) == b
  {
    forall b: Result<seq<byte>> ensures Join(Ok([]), b) == b {
      if b.Ok? {
        assert [] + b.value == b.value;
      }
    }
  }

  /** The loop over the remaining bytes. */
  method DecodePayload(g: Grammar, bytes: seq<byte>) returns (decoded: Result<Payload>)
    ensures decoded == Decode(g, bytes)
  {
    hide AddRecord, CutRecord;
    var remaining := bytes;
    var progress := Progress(EMPTY, false);
    while remaining != []
      invariant DecodeRecords(g, progress, remaining) == DecodeRecords(g, Progress(EMPTY, false), bytes)
      decreases |remaining|
    {
      var cut := CutRecord(remaining);
      if cut.Failed? {
        return Err(cut.error);
      }
      var added := AddRecord(g, progress, cut.value.kind, cut.value.body);
      if added.Err? {
        return Err(added.error);
      }
      progress := added.value;
      remaining := cut.rest;
    }
    if !progress.sawMeta {
      return Err(PersistenceCorrupt);
    }
    return Ok(progress.payload);
  }
}
