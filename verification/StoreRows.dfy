/** The fields of durable store records. A record is described by the list of its
    fields in order; writing and reading go through that list, and reading inverts
    writing for every list of fields. */
module StoreRows {
  import opened Values
  import opened Bytes
  import opened Orderings
  import opened ValueCodec

  /** One field of a record, with the check its reader makes. */
  datatype Shape =
    | Identifier(limit: nat, rule: Text -> bool)
    | OptionalIdentifier(limit: nat, rule: Text -> bool)
    | Number(width: nat, low: nat, high: nat)
    | Flag
    | Raw(count: nat)
    | ValueField
    | Rows(limit: nat, row: seq<Shape>)
    | SortedRows(limit: nat, row: seq<Shape>)

  datatype Datum =
    | TextDatum(text: Text)
    | NumberDatum(number: nat)
    | FlagDatum(flag: bool)
    | RawDatum(bytes: seq<byte>)
    | ValueDatum(value: CapabilityValue)
    | RowsDatum(rows: seq<Row>)

  type Row = seq<Datum>

  // ----- order of sorted rows -----

  function KeyOf(row: Row): Text {
    if row != [] && row[0].TextDatum? then row[0].text else []
  }

  predicate RowLess(a: Row, b: Row) { TextLess(KeyOf(a), KeyOf(b)) }

  predicate HasKeyTwins(rows: seq<Row>) {
    exists i :: 0 < i < |rows| && KeyOf(rows[i - 1]) == KeyOf(rows[i])
  }

  lemma RowsAreAsymmetric()
    ensures forall a, b :: RowLess(a, b) ==> !RowLess(b, a)
  {
    hide TextLess;
    TextIsTotal();
    TotalIsAsymmetric(TextLess);
  }

  lemma RowsStay(rows: seq<Row>)
    requires Increasing(RowLess, rows)
    ensures Sort(RowLess, rows) == rows && !HasKeyTwins(rows)
  {
    hide TextLess;
    RowsAreAsymmetric();
    IncreasingIsSorted(RowLess, rows);
    if i :| 0 < i < |rows| && KeyOf(rows[i - 1]) == KeyOf(rows[i]) {
      assert RowLess(rows[i - 1], rows[i]);
      TextOrder(KeyOf(rows[i]), KeyOf(rows[i]));
    }
  }

  // ----- what fits a record -----

  predicate FitsDatum(shape: Shape, datum: Datum)
    decreases shape, 0, 0
  {
    match shape
    case Identifier(limit, rule) =>
      datum.TextDatum? && |datum.text| <= limit && limit < TWO_TO_32 && ControlFree(datum.text) && rule(datum.text)
    case OptionalIdentifier(limit, rule) =>
      datum.TextDatum? && |datum.text| <= limit && limit < TWO_TO_32 && ControlFree(datum.text)
      && (datum.text != [] ==> rule(datum.text))
    case Number(width, low, high) => datum.NumberDatum? && low <= datum.number <= high && datum.number < Power256(width)
    case Flag => datum.FlagDatum?
    case Raw(count) => datum.RawDatum? && |datum.bytes| == count
    case ValueField => datum.ValueDatum? && Encodable(datum.value)
    case Rows(limit, row) => datum.RowsDatum? && |datum.rows| <= limit && limit < TWO_TO_32 && FitsRows(row, datum.rows)
    case SortedRows(limit, row) =>
      datum.RowsDatum? && |datum.rows| <= limit && limit < TWO_TO_32 && FitsRows(row, datum.rows)
      && Increasing(RowLess, datum.rows)
  }

  predicate FitsRow(shapes: seq<Shape>, row: Row)
    decreases shapes, 0, |shapes|
  {
    if shapes == [] then row == []
    else row != [] && FitsDatum(shapes[0], row[0]) && FitsRow(shapes[1..], row[1..])
  }

  predicate FitsRows(shapes: seq<Shape>, rows: seq<Row>)
    decreases shapes, 1, |rows|
  {
    rows == [] || (FitsRows(shapes, rows[..|rows| - 1]) && FitsRow(shapes, rows[|rows| - 1]))
  }

  // ----- writing -----

  /** Only a text beyond its limit makes the writer fail. */
  function WriteIdentifier(text: Text, limit: nat): Result<seq<byte>> {
    if |text| > limit then Err(TextTooLong) else Ok(WriteString(text))
  }

  function Join(a: Result<seq<byte>>, b: Result<seq<byte>>): Result<seq<byte>> {
    if a.Err? then a else if b.Err? then b else Ok(a.value + b.value)
  }

  /** A datum of the wrong type cannot occur in the source; here it is an error. */
  function WriteDatum(shape: Shape, datum: Datum): Result<seq<byte>>
    decreases shape, 0, 0
  {
    match (shape, datum)
    case (Identifier(limit, _), TextDatum(text)) => WriteIdentifier(text, limit)
    case (OptionalIdentifier(limit, _), TextDatum(text)) => WriteIdentifier(text, limit)
    case (Number(width, _, _), NumberDatum(number)) => Ok(LittleEndian(number, width))
    case (Flag, FlagDatum(flag)) => Ok(WriteBool(flag))
    case (Raw(_), RawDatum(bytes)) => Ok(bytes)
    case (ValueField, ValueDatum(value)) => Ok(WriteValue(value))
    case (Rows(_, row), RowsDatum(rows)) => Join(Ok(WriteU32(|rows|)), WriteRows(row, rows))
    case (SortedRows(_, row), RowsDatum(rows)) => Join(Ok(WriteU32(|rows|)), WriteRows(row, rows))
    case _ => Err(MalformedEncoding)
  }

  function WriteRow(shapes: seq<Shape>, row: Row): Result<seq<byte>>
    decreases shapes, 0, |shapes|
  {
    if shapes == [] || row == [] then Ok([])
    else Join(WriteDatum(shapes[0], row[0]), WriteRow(shapes[1..], row[1..]))
  }

  function WriteRows(shapes: seq<Shape>, rows: seq<Row>): Result<seq<byte>>
    decreases shapes, 1, |rows|
  {
    if rows == [] then Ok([])
    else Join(WriteRows(shapes, rows[..|rows| - 1]), WriteRow(shapes, rows[|rows| - 1]))
  }

  // ----- reading -----

  function ReadIdentifier(input: seq<byte>, limit: nat, rule: Text -> bool, optional: bool): Parse<Datum> {
    match ReadText(input, limit)
    case Failed(error) => Failed(error)
    case Parsed(text, rest) =>
      if (optional && text == []) || rule(text) then Parsed(TextDatum(text), rest) else Failed(MalformedIdentifier)
  }

  function ReadNumber(input: seq<byte>, width: nat, low: nat, high: nat): Parse<Datum> {
    match ReadUnsigned(input, width)
    case Failed(error) => Failed(error)
    case Parsed(n, rest) => if low <= n <= high then Parsed(NumberDatum(n), rest) else Failed(PersistenceCorrupt)
  }

  function ReadFlag(input: seq<byte>): Parse<Datum> {
    match ReadBool(input)
    case Failed(error) => Failed(error)
    case Parsed(b, rest) => Parsed(FlagDatum(b), rest)
  }

  function ReadRaw(input: seq<byte>, count: nat): Parse<Datum> {
    if |input| < count then Failed(MalformedEncoding) else Parsed(RawDatum(input[..count]), input[count..])
  }

  function ReadValueField(input: seq<byte>): Parse<Datum> {
    match ReadValue(input)
    case Failed(error) => Failed(error)
    case Parsed(v, rest) => Parsed(ValueDatum(v), rest)
  }

  function ReadDatum(shape: Shape, input: seq<byte>): Parse<Datum>
    decreases shape, 0, 0
  {
    match shape
    case Identifier(limit, rule) => ReadIdentifier(input, limit, rule, false)
    case OptionalIdentifier(limit, rule) => ReadIdentifier(input, limit, rule, true)
    case Number(width, low, high) => ReadNumber(input, width, low, high)
    case Flag => ReadFlag(input)
    case Raw(count) => ReadRaw(input, count)
    case ValueField => ReadValueField(input)
    case Rows(limit, row) => (
      match ReadRowsWithin(limit, row, input)
      case Failed(error) => Failed(error)
      case Parsed(rows, rest) => Parsed(RowsDatum(rows), rest))
    case SortedRows(limit, row) => (
      match ReadRowsWithin(limit, row, input)
      case Failed(error) => Failed(error)
      case Parsed(rows, rest) =>
        var sorted := Sort(RowLess, rows);
        if HasKeyTwins(sorted) then Failed(PersistenceDuplicateRecord) else Parsed(RowsDatum(sorted), rest))
  }

  /** A count within its bound, then that many rows. */
  function ReadRowsWithin(limit: nat, shapes: seq<Shape>, input: seq<byte>): Parse<seq<Row>>
    decreases shapes, 2, 0
  {
    match ReadU32(input)
    case Failed(error) => Failed(error)
    case Parsed(count, rest) =>
      if count > limit then Failed(PersistenceLimitExceeded) else ReadRows(shapes, count, rest)
  }

  function ReadRow(shapes: seq<Shape>, input: seq<byte>): Parse<Row>
    decreases shapes, 0, |shapes|
  {
    if shapes == [] then Parsed([], input)
    else
      match ReadDatum(shapes[0], input)
      case Failed(error) => Failed(error)
      case Parsed(datum, rest) =>
        match ReadRow(shapes[1..], rest)
        case Failed(error) => Failed(error)
        case Parsed(row, tail) => Parsed([datum] + row, tail)
  }

  function ReadRows(shapes: seq<Shape>, count: nat, input: seq<byte>): Parse<seq<Row>>
    decreases shapes, 1, count
  {
    if count == 0 then Parsed([], input)
    else
      match ReadRows(shapes, count - 1, input)
      case Failed(error) => Failed(error)
      case Parsed(rows, rest) =>
        match ReadRow(shapes, rest)
        case Failed(error) => Failed(error)
        case Parsed(row, tail) => Parsed(rows + [row], tail)
  }

  // ----- reading inverts writing -----

  ghost predicate InvertsDatum(shape: Shape, datum: Datum, rest: seq<byte>) {
    var written := WriteDatum(shape, datum);
    written.Ok? && ReadDatum(shape, written.value + rest) == Parsed(datum, rest)
  }

  lemma IdentifierRoundTrip(shape: Shape, datum: Datum, rest: seq<byte>)
    requires (shape.Identifier? || shape.OptionalIdentifier?) && FitsDatum(shape, datum)
    ensures InvertsDatum(shape, datum, rest)
  {
    hide ReadText, WriteString, ControlFree;
    TextRoundTrip(datum.text, shape.limit, rest);
  }

  lemma NumberRoundTrip(shape: Shape, datum: Datum, rest: seq<byte>)
    requires (shape.Number? || shape.Flag? || shape.Raw? || shape.ValueField?) && FitsDatum(shape, datum)
    ensures InvertsDatum(shape, datum, rest)
  {
    hide ReadUnsigned, LittleEndian, ReadBool, WriteBool, ReadValue, WriteValue, Encodable;
    match shape
    case Number(width, _, _) => ReadWritten(datum.number, width, rest);
    case Flag => BoolRoundTrip(datum.flag, rest);
    case Raw(count) => assert (datum.bytes + rest)[..count] == datum.bytes && (datum.bytes + rest)[count..] == rest;
    case ValueField => ValueRoundTrip(datum.value, rest);
  }

  lemma {:induction false} DatumRoundTrip(shape: Shape, datum: Datum, rest: seq<byte>)
    requires FitsDatum(shape, datum)
    ensures InvertsDatum(shape, datum, rest)
    decreases shape, 0, 0
  {
    hide ReadRowsWithin, WriteRows, Join, Sort, HasKeyTwins, Increasing;
    match shape
    case Identifier(_, _) => IdentifierRoundTrip(shape, datum, rest);
    case OptionalIdentifier(_, _) => IdentifierRoundTrip(shape, datum, rest);
    case Rows(limit, row) => RowsWithinRoundTrip(limit, row, datum.rows, rest);
    case SortedRows(limit, row) =>
      RowsWithinRoundTrip(limit, row, datum.rows, rest);
      RowsStay(datum.rows);
    case _ => NumberRoundTrip(shape, datum, rest);
  }

  lemma {:induction false} RowsWithinRoundTrip(limit: nat, shapes: seq<Shape>, rows: seq<Row>, rest: seq<byte>)
    requires |rows| <= limit && limit < TWO_TO_32 && FitsRows(shapes, rows)
    ensures var written := Join(Ok(WriteU32(|rows|)), WriteRows(shapes, rows));
            written.Ok? && ReadRowsWithin(limit, shapes, written.value + rest) == Parsed(rows, rest)
    decreases shapes, 2, 0
  {
    hide ReadU32, WriteU32, ReadRows, WriteRows;
    RowsRoundTrip(shapes, rows, rest);
    var body := WriteRows(shapes, rows).value;
    assert WriteU32(|rows|) + body + rest == WriteU32(|rows|) + (body + rest);
    NumberRoundTrips(|rows|, body + rest);
  }

  lemma {:induction false} RowRoundTrip(shapes: seq<Shape>, row: Row, rest: seq<byte>)
    requires FitsRow(shapes, row)
    ensures WriteRow(shapes, row).Ok?
    ensures ReadRow(shapes, WriteRow(shapes, row).value + rest) == Parsed(row, rest)
    decreases shapes, 0, |shapes|
  {
    hide WriteDatum, ReadDatum, FitsDatum;
    if shapes == [] {
      assert [] + rest == rest;
    } else {
      RowRoundTrip(shapes[1..], row[1..], rest);
      var tail := WriteRow(shapes[1..], row[1..]).value;
      DatumRoundTrip(shapes[0], row[0], tail + rest);
      var head := WriteDatum(shapes[0], row[0]).value;
      assert head + tail + rest == head + (tail + rest);
      assert row == [row[0]] + row[1..];
    }
  }

  lemma {:induction false} RowsRoundTrip(shapes: seq<Shape>, rows: seq<Row>, rest: seq<byte>)
    requires FitsRows(shapes, rows)
    ensures WriteRows(shapes, rows).Ok?
    ensures ReadRows(shapes, |rows|, WriteRows(shapes, rows).value + rest) == Parsed(rows, rest)
    decreases shapes, 1, |rows|
  {
    hide WriteRow, ReadRow, FitsRow;
    if rows == [] {
      assert [] + rest == rest;
    } else {
      var n := |rows| - 1;
      RowRoundTrip(shapes, rows[n], rest);
      var last := WriteRow(shapes, rows[n]).value;
      RowsRoundTrip(shapes, rows[..n], last + rest);
      var front := WriteRows(shapes, rows[..n]).value;
      assert front + last + rest == front + (last + rest);
      assert rows == rows[..n] + [rows[n]];
    }
  }

  // ----- fields one by one -----

  lemma {:induction false} FitsEachField(shapes: seq<Shape>, row: Row)
    ensures FitsRow(shapes, row) <==>
            |row| == |shapes| && forall i :: 0 <= i < |shapes| ==> FitsDatum(shapes[i], row[i])
    decreases |shapes|
  {
    hide FitsDatum;
    if shapes != [] && row != [] {
      FitsEachField(shapes[1..], row[1..]);
      if |row| == |shapes| {
        assert forall i :: 0 < i < |shapes| ==> shapes[i] == shapes[1..][i - 1] && row[i] == row[1..][i - 1];
      }
    }
  }

  /** A field that cannot be read makes the whole record fail, with that field's error. */
  lemma {:induction false} RowFailsAt(shapes: seq<Shape>, row: Row, k: nat, error: CodecError, rest: seq<byte>)
    requires k < |shapes| == |row| && WriteRow(shapes, row).Ok?
    requires forall i :: 0 <= i < k ==> FitsDatum(shapes[i], row[i])
    requires WriteDatum(shapes[k], row[k]).Ok?
    requires forall r :: ReadDatum(shapes[k], WriteDatum(shapes[k], row[k]).value + r) == Failed(error)
    ensures ReadRow(shapes, WriteRow(shapes, row).value + rest) == Failed(error)
    decreases |shapes|
  {
    hide WriteDatum, ReadDatum, FitsDatum;
    var head, tail := WriteDatum(shapes[0], row[0]).value, WriteRow(shapes[1..], row[1..]).value;
    assert WriteRow(shapes, row).value + rest == head + (tail + rest);
    if k > 0 {
      RowFailsAt(shapes[1..], row[1..], k - 1, error, rest);
      DatumRoundTrip(shapes[0], row[0], tail + rest);
    }
  }

  // ----- how long a record is -----

  lemma OneMoreTime(n: nat, size: nat)
    requires n > 0
    ensures n * size == (n - 1) * size + size
  {
  }

  /** Field k is at most `long` bytes and every other one at most `short`. */
  lemma {:induction false} RowLength(shapes: seq<Shape>, row: Row, short: nat, k: nat, long: nat)
    requires |shapes| == |row|
    requires forall i :: 0 <= i < |row| ==> WriteDatum(shapes[i], row[i]).Ok?
    requires forall i :: 0 <= i < |row| ==>
               |WriteDatum(shapes[i], row[i]).value| <= if i == k then long else short
    ensures WriteRow(shapes, row).Ok?
    ensures |WriteRow(shapes, row).value| <= |row| * short + if k < |row| then long else 0
    decreases |shapes|
  {
    hide WriteDatum;
    if row != [] {
      assert forall i :: 0 <= i < |row| - 1 ==> shapes[1..][i] == shapes[i + 1] && row[1..][i] == row[i + 1];
      RowLength(shapes[1..], row[1..], short, if k == 0 then |row| else k - 1, long);
      OneMoreTime(|row|, short);
    }
  }

  lemma {:induction false} RowsLength(shapes: seq<Shape>, rows: seq<Row>, most: nat)
    requires forall row :: row in rows ==> WriteRow(shapes, row).Ok? && |WriteRow(shapes, row).value| <= most
    ensures WriteRows(shapes, rows).Ok? && |WriteRows(shapes, rows).value| <= |rows| * most
    decreases |rows|
  {
    hide WriteRow;
    if rows != [] {
      var n := |rows| - 1;
      RowsLength(shapes, rows[..n], most);
      assert rows[n] in rows;
      OneMoreTime(|rows|, most);
    }
  }

  // ----- everything read fits -----

  lemma FitsEach(shapes: seq<Shape>, rows: seq<Row>)
    ensures FitsRows(shapes, rows) <==> forall row :: row in rows ==> FitsRow(shapes, row)
    decreases |rows|
  {
    hide FitsRow;
    if rows != [] {
      var n := |rows| - 1;
      FitsEach(shapes, rows[..n]);
      assert rows == rows[..n] + [rows[n]];
      assert forall row :: row in rows <==> row in rows[..n] || row == rows[n];
    }
  }

  lemma SortedRowsFit(shapes: seq<Shape>, rows: seq<Row>)
    requires FitsRows(shapes, rows) && !HasKeyTwins(Sort(RowLess, rows))
    ensures FitsRows(shapes, Sort(RowLess, rows)) && Increasing(RowLess, Sort(RowLess, rows))
  {
    hide Sort, FitsRow, TextLess;
    var sorted := Sort(RowLess, rows);
    RowsAreAsymmetric();
    SortSorts(RowLess, rows);
    SortKeepsElements(RowLess, rows);
    FitsEach(shapes, rows);
    FitsEach(shapes, sorted);
    forall i | 0 < i < |sorted| ensures RowLess(sorted[i - 1], sorted[i]) {
      TextOrder(KeyOf(sorted[i - 1]), KeyOf(sorted[i]));
      assert !RowLess(sorted[i], sorted[i - 1]);
    }
  }

  /** The declared bounds of a shape are ones a record can carry. */
  predicate ShapeOk(shape: Shape)
    decreases shape, 0, 0
  {
    match shape
    case Identifier(limit, rule) => limit < TWO_TO_32
    case OptionalIdentifier(limit, rule) => limit < TWO_TO_32
    case Rows(limit, row) => limit < TWO_TO_32 && ShapesOk(row)
    case SortedRows(limit, row) => limit < TWO_TO_32 && ShapesOk(row)
    case _ => true
  }

  predicate ShapesOk(shapes: seq<Shape>)
    decreases shapes, 0, |shapes|
  {
    shapes == [] || (ShapeOk(shapes[0]) && ShapesOk(shapes[1..]))
  }

  lemma SimpleDatumFits(shape: Shape, input: seq<byte>)
    requires ShapeOk(shape) && !shape.Rows? && !shape.SortedRows? && ReadDatum(shape, input).Parsed?
    ensures FitsDatum(shape, ReadDatum(shape, input).value)
  {
    hide ReadUnsigned, ReadText, ReadBool, ReadValue, Encodable, Canonical, ControlFree;
    match shape
    case Identifier(limit, _) => TextsRead(input, limit);
    case OptionalIdentifier(limit, _) => TextsRead(input, limit);
    case Number(width, _, _) => ReadIsWritten(input, width);
    case ValueField => DecodedIsCanonical(input);
    case _ =>
  }

  lemma {:induction false} ReadDatumFits(shape: Shape, input: seq<byte>)
    requires ShapeOk(shape) && ReadDatum(shape, input).Parsed?
    ensures FitsDatum(shape, ReadDatum(shape, input).value)
    decreases shape, 0, 0
  {
    match shape
    case Rows(limit, row) => ReadRowsWithinFit(limit, row, input);
    case SortedRows(limit, row) =>
      ReadRowsWithinFit(limit, row, input);
      SortedRowsFit(row, ReadRowsWithin(limit, row, input).value);
    case _ => SimpleDatumFits(shape, input);
  }

  lemma {:induction false} ReadRowsWithinFit(limit: nat, shapes: seq<Shape>, input: seq<byte>)
    requires ShapesOk(shapes) && ReadRowsWithin(limit, shapes, input).Parsed?
    ensures FitsRows(shapes, ReadRowsWithin(limit, shapes, input).value)
    ensures |ReadRowsWithin(limit, shapes, input).value| <= limit
    decreases shapes, 2, 0
  {
    hide ReadU32;
    var counted := ReadU32(input);
    ReadRowsFit(shapes, counted.value, counted.rest);
  }

  lemma {:induction false} ReadRowFits(shapes: seq<Shape>, input: seq<byte>)
    requires ShapesOk(shapes) && ReadRow(shapes, input).Parsed?
    ensures FitsRow(shapes, ReadRow(shapes, input).value)
    decreases shapes, 0, |shapes|
  {
    hide ReadDatum, FitsDatum, ShapeOk;
    if shapes != [] {
      ReadDatumFits(shapes[0], input);
      var datum := ReadDatum(shapes[0], input);
      ReadRowFits(shapes[1..], datum.rest);
      var row := ReadRow(shapes[1..], datum.rest).value;
      assert ([datum.value] + row)[1..] == row;
    }
  }

  lemma {:induction false} ReadRowsFit(shapes: seq<Shape>, count: nat, input: seq<byte>)
    requires ShapesOk(shapes) && ReadRows(shapes, count, input).Parsed?
    ensures FitsRows(shapes, ReadRows(shapes, count, input).value) && |ReadRows(shapes, count, input).value| == count
    decreases shapes, 1, count
  {
    hide ReadRow, FitsRow, ShapesOk;
    if count > 0 {
      ReadRowsFit(shapes, count - 1, input);
      var front := ReadRows(shapes, count - 1, input);
      ReadRowFits(shapes, front.rest);
      var row := ReadRow(shapes, front.rest).value;
      assert (front.value + [row])[..count - 1] == front.value;
    }
  }
}
