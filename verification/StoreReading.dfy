/** Which bytes the store decoder accepts, and as what: exactly the sequences of records, in any order,
    with one meta record and lists within their bounds, in which every body is a row of its kind. */
module StoreReading {
  import Sequences
  import opened Values
  import opened Bytes
  import opened Orderings
  import opened ValueCodec
  import opened ValueFactories
  import opened ValueReading
  import opened StoreRows
  import opened StorePayload

  // ----- the same row, its sets in another order -----

  /** The same field but for the order of what its reader sorts. */
  ghost predicate ArrangesDatum(shape: Shape, given: Datum, datum: Datum)
    decreases shape, 0, 0
  {
    match shape
    case ValueField => given.ValueDatum? && datum.ValueDatum? && Arranges(given.value, datum.value)
    case Rows(_, row) => given.RowsDatum? && datum.RowsDatum? && ArrangesRows(row, given.rows, datum.rows)
    case SortedRows(_, row) =>
      && given.RowsDatum? && datum.RowsDatum?
      && exists listed :: multiset(listed) == multiset(datum.rows) && ArrangesRows(row, given.rows, listed)
    case _ => given == datum
  }

  ghost predicate ArrangesRow(shapes: seq<Shape>, given: Row, row: Row)
    decreases shapes, 0, |shapes|
  {
    if shapes == [] then given == [] && row == []
    else
      && given != [] && row != []
      && ArrangesDatum(shapes[0], given[0], row[0]) && ArrangesRow(shapes[1..], given[1..], row[1..])
  }

  ghost predicate ArrangesRows(shapes: seq<Shape>, given: seq<Row>, rows: seq<Row>)
    decreases shapes, 1, |rows|
  {
    && |given| == |rows|
    && (rows == [] || (ArrangesRows(shapes, given[..|rows| - 1], rows[..|rows| - 1])
                       && ArrangesRow(shapes, given[|rows| - 1], rows[|rows| - 1])))
  }

  // ----- what is read was written -----

  ghost predicate DatumWritten(shape: Shape, given: Datum, input: seq<byte>) {
    var read, written := ReadDatum(shape, input), WriteDatum(shape, given);
    read.Parsed? && ArrangesDatum(shape, given, read.value) && written.Ok? && input == written.value + read.rest
  }

  lemma SimpleDatumIsWritten(shape: Shape, input: seq<byte>) returns (given: Datum)
    requires !shape.Rows? && !shape.SortedRows? && ReadDatum(shape, input).Parsed?
    ensures DatumWritten(shape, given, input)
  {
    hide ReadUnsigned, LittleEndian, ReadText, WriteString, ReadBool, WriteBool, ReadValue, WriteValue, Arranges,
      ControlFree;
    given := ReadDatum(shape, input).value;
    match shape
    case Identifier(limit, _) =>
      TextsRead(input, limit);
      TextIsWritten(input, limit);
    case OptionalIdentifier(limit, _) =>
      TextsRead(input, limit);
      TextIsWritten(input, limit);
    case Number(width, _, _) => ReadIsWritten(input, width);
    case Flag => BoolIsWritten(input);
    case Raw(count) => assert input == input[..count] + input[count..];
    case ValueField =>
      var read := ReadValue(input);
      ReadExactly(input, read.value, read.rest);
      var value :| Arranges(value, read.value) && input == WriteValue(value) + read.rest;
      given := ValueDatum(value);
  }

  lemma {:induction false} DatumIsWritten(shape: Shape, input: seq<byte>) returns (given: Datum)
    requires ReadDatum(shape, input).Parsed?
    ensures DatumWritten(shape, given, input)
    decreases shape, 0, 0
  {
    match shape
    case Rows(limit, row) =>
      var rows := RowsWithinAreWritten(limit, row, input);
      given := RowsDatum(rows);
    case SortedRows(limit, row) =>
      var rows := RowsWithinAreWritten(limit, row, input);
      SortMembers(RowLess, ReadRowsWithin(limit, row, input).value);
      given := RowsDatum(rows);
    case _ => given := SimpleDatumIsWritten(shape, input);
  }

  lemma {:induction false} RowsWithinAreWritten(limit: nat, shapes: seq<Shape>, input: seq<byte>)
    returns (given: seq<Row>)
    requires ReadRowsWithin(limit, shapes, input).Parsed?
    ensures var read, written := ReadRowsWithin(limit, shapes, input), WriteRows(shapes, given);
            && ArrangesRows(shapes, given, read.value) && written.Ok?
            && input == (WriteU32(|given|) + written.value) + read.rest
    decreases shapes, 2, 0
  {
    hide ReadU32, WriteU32, ReadRows, WriteRows, ArrangesRow;
    UnsignedIsWritten(input);
    var count := ReadU32(input);
    given := RowsAreWritten(shapes, count.value, count.rest);
    var rows := ReadRows(shapes, count.value, count.rest);
    RowsRead(shapes, count.value, count.rest);
    Chain2(input, WriteU32(count.value), count.rest, WriteRows(shapes, given).value, rows.rest);
  }

  lemma {:induction false} RowsRead(shapes: seq<Shape>, count: nat, input: seq<byte>)
    requires ReadRows(shapes, count, input).Parsed?
    ensures |ReadRows(shapes, count, input).value| == count
    decreases count
  {
    if count > 0 {
      RowsRead(shapes, count - 1, input);
    }
  }

  lemma {:induction false} RowIsWritten(shapes: seq<Shape>, input: seq<byte>) returns (given: Row)
    requires ReadRow(shapes, input).Parsed?
    ensures var read, written := ReadRow(shapes, input), WriteRow(shapes, given);
            ArrangesRow(shapes, given, read.value) && written.Ok? && input == written.value + read.rest
    decreases shapes, 0, |shapes|
  {
    hide ReadDatum, WriteDatum, ArrangesDatum;
    given := [];
    if shapes != [] {
      var first := DatumIsWritten(shapes[0], input);
      var datum := ReadDatum(shapes[0], input);
      var others := RowIsWritten(shapes[1..], datum.rest);
      var row := ReadRow(shapes[1..], datum.rest);
      given := [first] + others;
      assert given[1..] == others && ([datum.value] + row.value)[1..] == row.value;
      Chain2(input, WriteDatum(shapes[0], first).value, datum.rest, WriteRow(shapes[1..], others).value, row.rest);
    }
  }

  lemma {:induction false} RowsAreWritten(shapes: seq<Shape>, count: nat, input: seq<byte>) returns (given: seq<Row>)
    requires ReadRows(shapes, count, input).Parsed?
    ensures var read, written := ReadRows(shapes, count, input), WriteRows(shapes, given);
            ArrangesRows(shapes, given, read.value) && written.Ok? && input == written.value + read.rest
    decreases shapes, 1, count
  {
    hide ReadRow, WriteRow, ArrangesRow;
    given := [];
    if count > 0 {
      var before := RowsAreWritten(shapes, count - 1, input);
      var front := ReadRows(shapes, count - 1, input);
      var last := RowIsWritten(shapes, front.rest);
      var row := ReadRow(shapes, front.rest);
      RowsRead(shapes, count - 1, input);
      given := before + [last];
      assert given[..count - 1] == before && (front.value + [row.value])[..count - 1] == front.value;
      Chain2(input, WriteRows(shapes, before).value, front.rest, WriteRow(shapes, last).value, row.rest);
    }
  }

  // ----- any order is read -----

  lemma RowOrder()
    ensures StrictOrder(RowLess)
  {
    hide TextLess;
    TextIsTotal();
  }

  lemma KeysDiffer(a: Row, b: Row)
    requires RowLess(a, b)
    ensures KeyOf(a) != KeyOf(b)
  {
    hide TextLess;
    TextIsTotal();
  }

  /** Sorting finds the one order in which the keys rise. */
  lemma SortingFindsOrder(listed: seq<Row>, rows: seq<Row>)
    requires multiset(listed) == multiset(rows) && Increasing(RowLess, rows)
    ensures Sort(RowLess, listed) == rows && !HasKeyTwins(rows)
  {
    hide RowLess, StrictOrder, Sort;
    RowsStay(rows);
    RowOrder();
    forall i, j | 0 <= i < j < |rows| ensures KeyOf(rows[i]) != KeyOf(rows[j]) {
      IncreasingPairs(RowLess, rows, i, j);
      KeysDiffer(rows[i], rows[j]);
    }
    Sequences.KeysDifferExactly(KeyOf, rows);
    var sorted := Sort(RowLess, listed);
    SortMembers(RowLess, listed);
    Sequences.PermutedMembers(sorted, rows);
    assert Sequences.KeysOf(KeyOf, sorted) == Sequences.KeysOf(KeyOf, rows);
    Sequences.KeysDifferExactly(KeyOf, sorted);
    SortedWithoutTwinsRises(listed);
    IncreasingIsUnique(RowLess, sorted, rows);
  }

  lemma SortedWithoutTwinsRises(listed: seq<Row>)
    ensures !HasKeyTwins(Sort(RowLess, listed)) ==> Increasing(RowLess, Sort(RowLess, listed))
  {
    hide Sort, TextLess;
    RowsAreAsymmetric();
    SortSorts(RowLess, listed);
    var sorted := Sort(RowLess, listed);
    if !HasKeyTwins(sorted) {
      forall i | 0 < i < |sorted| ensures RowLess(sorted[i - 1], sorted[i]) {
        TextOrder(KeyOf(sorted[i - 1]), KeyOf(sorted[i]));
        assert !RowLess(sorted[i], sorted[i - 1]);
      }
    }
  }

  ghost predicate DatumIsRead(shape: Shape, given: Datum, datum: Datum, rest: seq<byte>) {
    var written := WriteDatum(shape, given);
    written.Ok? && ReadDatum(shape, written.value + rest) == Parsed(datum, rest)
  }

  lemma ArrangedValueIsRead(given: Datum, datum: Datum, rest: seq<byte>)
    requires FitsDatum(ValueField, datum) && ArrangesDatum(ValueField, given, datum)
    ensures DatumIsRead(ValueField, given, datum, rest)
  {
    hide ReadValue, WriteValue, Arranges, Encodable;
    ReadExactly(WriteValue(given.value) + rest, datum.value, rest);
  }

  lemma {:induction false} ArrangedDatumIsRead(shape: Shape, given: Datum, datum: Datum, rest: seq<byte>)
    requires FitsDatum(shape, datum) && ArrangesDatum(shape, given, datum)
    ensures DatumIsRead(shape, given, datum, rest)
    decreases shape, 0, 0
  {
    hide ReadRowsWithin, WriteRows, Join, Sort, HasKeyTwins, Increasing;
    match shape
    case ValueField => ArrangedValueIsRead(given, datum, rest);
    case Rows(limit, row) => ArrangedRowsWithinAreRead(limit, row, given.rows, datum.rows, rest);
    case SortedRows(limit, row) =>
      var listed :| multiset(listed) == multiset(datum.rows) && ArrangesRows(row, given.rows, listed);
      Sequences.PermutedMembers(listed, datum.rows);
      FitsEach(row, listed);
      FitsEach(row, datum.rows);
      ArrangedRowsWithinAreRead(limit, row, given.rows, listed, rest);
      SortingFindsOrder(listed, datum.rows);
    case _ => DatumRoundTrip(shape, datum, rest);
  }

  lemma {:induction false} ArrangedRowsWithinAreRead(limit: nat, shapes: seq<Shape>, given: seq<Row>, rows: seq<Row>,
                                                     rest: seq<byte>)
    requires |rows| <= limit && limit < TWO_TO_32 && FitsRows(shapes, rows) && ArrangesRows(shapes, given, rows)
    ensures var written := Join(Ok(WriteU32(|given|)), WriteRows(shapes, given));
            written.Ok? && ReadRowsWithin(limit, shapes, written.value + rest) == Parsed(rows, rest)
    decreases shapes, 2, 0
  {
    hide ReadU32, WriteU32, ReadRows, WriteRows;
    ArrangedRowsAreRead(shapes, given, rows, rest);
    var body := WriteRows(shapes, given).value;
    assert WriteU32(|rows|) + body + rest == WriteU32(|rows|) + (body + rest);
    NumberRoundTrips(|rows|, body + rest);
  }

  lemma {:induction false} ArrangedRowIsRead(shapes: seq<Shape>, given: Row, row: Row, rest: seq<byte>)
    requires FitsRow(shapes, row) && ArrangesRow(shapes, given, row)
    ensures WriteRow(shapes, given).Ok?
    ensures ReadRow(shapes, WriteRow(shapes, given).value + rest) == Parsed(row, rest)
    decreases shapes, 0, |shapes|
  {
    hide WriteDatum, ReadDatum, FitsDatum, ArrangesDatum;
    if shapes == [] {
      assert [] + rest == rest;
    } else {
      ArrangedRowIsRead(shapes[1..], given[1..], row[1..], rest);
      var tail := WriteRow(shapes[1..], given[1..]).value;
      ArrangedDatumIsRead(shapes[0], given[0], row[0], tail + rest);
      var head := WriteDatum(shapes[0], given[0]).value;
      assert head + tail + rest == head + (tail + rest);
      assert row == [row[0]] + row[1..];
    }
  }

  lemma {:induction false} ArrangedRowsAreRead(shapes: seq<Shape>, given: seq<Row>, rows: seq<Row>, rest: seq<byte>)
    requires FitsRows(shapes, rows) && ArrangesRows(shapes, given, rows)
    ensures WriteRows(shapes, given).Ok?
    ensures ReadRows(shapes, |rows|, WriteRows(shapes, given).value + rest) == Parsed(rows, rest)
    decreases shapes, 1, |rows|
  {
    hide WriteRow, ReadRow, FitsRow, ArrangesRow;
    if rows == [] {
      assert [] + rest == rest;
    } else {
      var n := |rows| - 1;
      ArrangedRowIsRead(shapes, given[n], rows[n], rest);
      var last := WriteRow(shapes, given[n]).value;
      ArrangedRowsAreRead(shapes, given[..n], rows[..n], last + rest);
      var front := WriteRows(shapes, given[..n]).value;
      assert front + last + rest == front + (last + rest);
      assert rows == rows[..n] + [rows[n]];
    }
  }

  /** A row is read off the front of the input exactly when it fits its shapes and the input starts with
      its encoding, what is sorted in some order. */
  lemma RowReadExactly(shapes: seq<Shape>, input: seq<byte>, row: Row, rest: seq<byte>)
    requires ShapesOk(shapes)
    ensures ReadRow(shapes, input) == Parsed(row, rest) <==>
              && FitsRow(shapes, row)
              && exists given :: ArrangesRow(shapes, given, row) && WriteRow(shapes, given).Ok?
                                 && input == WriteRow(shapes, given).value + rest
  {
    hide ReadRow, WriteRow, FitsRow, ArrangesRow, ShapesOk;
    if ReadRow(shapes, input) == Parsed(row, rest) {
      ReadRowFits(shapes, input);
      var given := RowIsWritten(shapes, input);
      assert ArrangesRow(shapes, given, row);
    }
    if FitsRow(shapes, row) && exists given :: ArrangesRow(shapes, given, row) && WriteRow(shapes, given).Ok?
                                               && input == WriteRow(shapes, given).value + rest
    {
      var given :| ArrangesRow(shapes, given, row) && WriteRow(shapes, given).Ok?
        && input == WriteRow(shapes, given).value + rest;
      ArrangedRowIsRead(shapes, given, row, rest);
    }
  }

  /** A record body is read exactly when it is the encoding of the row, what is sorted in some order. */
  lemma WholeReadExactly(shapes: seq<Shape>, body: seq<byte>, row: Row)
    requires ShapesOk(shapes)
    ensures ReadWhole(shapes, body) == Ok(row) <==>
              && FitsRow(shapes, row)
              && exists given :: ArrangesRow(shapes, given, row) && WriteRow(shapes, given) == Ok(body)
  {
    hide ReadRow, WriteRow, FitsRow, ArrangesRow, ShapesOk;
    RowReadExactly(shapes, body, row, []);
    if ReadWhole(shapes, body) == Ok(row) {
      assert ReadWhole(shapes, body).value == row;
      assert ReadRow(shapes, body).value == row && ReadRow(shapes, body).rest == [];
      var given :| ArrangesRow(shapes, given, row) && WriteRow(shapes, given).Ok?
        && body == WriteRow(shapes, given).value + [];
      assert WriteRow(shapes, given).value == body;
    }
    if given :| FitsRow(shapes, row) && ArrangesRow(shapes, given, row) && WriteRow(shapes, given) == Ok(body) {
      assert body == WriteRow(shapes, given).value + [];
      assert ReadRow(shapes, body) == Parsed(row, []);
    }
  }

  // ----- records -----

  /** The records one after the other. */
  function Written(cuts: seq<Cut>): seq<byte>
    decreases |cuts|
  {
    if cuts == [] then [] else Record(cuts[0].kind, cuts[0].body) + Written(cuts[1..])
  }

  /** The bodies of the records of a kind, in order. */
  function BodiesOf(cuts: seq<Cut>, kind: nat): seq<seq<byte>>
    decreases |cuts|
  {
    if cuts == [] then []
    else (if cuts[0].kind == kind then [cuts[0].body] else []) + BodiesOf(cuts[1..], kind)
  }

  /** A record of one of the five kinds, its length in 32 bits. */
  predicate IsRecord(cut: Cut) { 1 <= cut.kind <= 5 && |cut.body| < TWO_TO_32 }

  /** The list after the rows of the bodies were added to it. */
  ghost predicate TakesIn(shapes: seq<Shape>, before: seq<Row>, bodies: seq<seq<byte>>, after: seq<Row>) {
    && |after| == |before| + |bodies| && after[..|before|] == before
    && forall i :: 0 <= i < |bodies| ==> ReadWhole(shapes, bodies[i]) == Ok(after[|before| + i])
  }

  ghost predicate TakesInKind(g: Grammar, p: Progress, cuts: seq<Cut>, q: Progress, kind: nat) {
    && TakesIn(ShapeOf(g, kind), Listed(p.payload, kind), BodiesOf(cuts, kind), Listed(q.payload, kind))
    && |Listed(q.payload, kind)| <= BoundOf(kind)
  }

  ghost predicate TakesInMeta(p: Progress, metas: seq<seq<byte>>, q: Progress) {
    if metas == [] then q.sawMeta == p.sawMeta && MetaRow(q.payload) == MetaRow(p.payload)
    else !p.sawMeta && |metas| == 1 && q.sawMeta && ReadWhole(MetaShape(), metas[0]) == Ok(MetaRow(q.payload))
  }

  ghost predicate Collects(g: Grammar, p: Progress, cuts: seq<Cut>, q: Progress) {
    && (forall cut :: cut in cuts ==> IsRecord(cut))
    && TakesInMeta(p, BodiesOf(cuts, 1), q)
    && forall kind :: 2 <= kind <= 5 ==> TakesInKind(g, p, cuts, q, kind)
  }

  ghost predicate WithinBounds(p: Progress) {
    forall kind :: 2 <= kind <= 5 ==> |Listed(p.payload, kind)| <= BoundOf(kind)
  }

  lemma MetaRowIsNumbers(body: seq<byte>, row: Row)
    requires ReadWhole(MetaShape(), body) == Ok(row)
    ensures |row| == 2 && row[0].NumberDatum? && row[1].NumberDatum?
  {
    hide ReadRow;
    ReadRowFits(MetaShape(), body);
    assert MetaShape()[1..] == [Counter()] && [Counter()][1..] == [];
    assert FitsRow([Counter()], row[1..]);
    assert FitsRow([], row[1..][1..]);
  }

  lemma OneBody(cut: Cut, kind: nat)
    ensures BodiesOf([cut], kind) == if cut.kind == kind then [cut.body] else []
  {
    assert [cut][1..] == [];
  }

  lemma TakesNothing(shapes: seq<Shape>, before: seq<Row>, after: seq<Row>)
    ensures TakesIn(shapes, before, [], after) <==> after == before
  {
    if TakesIn(shapes, before, [], after) {
      assert after == after[..|before|];
    }
  }

  lemma TakesOne(shapes: seq<Shape>, before: seq<Row>, body: seq<byte>, after: seq<Row>)
    ensures TakesIn(shapes, before, [body], after) <==>
              ReadWhole(shapes, body).Ok? && after == before + [ReadWhole(shapes, body).value]
  {
    hide ReadWhole;
    if TakesIn(shapes, before, [body], after) {
      assert ReadWhole(shapes, [body][0]) == Ok(after[|before| + 0]);
      assert ReadWhole(shapes, body).value == after[|before|];
      assert after == after[..|before|] + [after[|before|]];
    }
  }

  lemma BodiesOfMore(first: Cut, others: seq<Cut>, kind: nat)
    ensures BodiesOf([first] + others, kind) ==
            (if first.kind == kind then [first.body] else []) + BodiesOf(others, kind)
    ensures Written([first] + others) == Record(first.kind, first.body) + Written(others)
  {
    assert ([first] + others)[1..] == others;
  }

  // ----- adding records -----

  lemma SamePayload(a: Payload, b: Payload)
    requires MetaRow(a) == MetaRow(b) && forall kind :: 2 <= kind <= 5 ==> Listed(a, kind) == Listed(b, kind)
    ensures a == b
  {
    assert MetaRow(a)[0] == MetaRow(b)[0] && MetaRow(a)[1] == MetaRow(b)[1];
    assert Listed(a, 2) == Listed(b, 2) && Listed(a, 3) == Listed(b, 3);
    assert Listed(a, 4) == Listed(b, 4) && Listed(a, 5) == Listed(b, 5);
  }

  /** What a meta record adds. */
  lemma MetaAdded(g: Grammar, p: Progress, body: seq<byte>, next: Progress)
    ensures AddRecord(g, p, 1, body) == Ok(next) <==>
              && TakesInMeta(p, [body], next)
              && forall kind :: 2 <= kind <= 5 ==> Listed(next.payload, kind) == Listed(p.payload, kind)
  {
    hide ReadWhole, MetaShape;
    if ReadWhole(MetaShape(), body).Ok? {
      var row: Row := ReadWhole(MetaShape(), body).value;
      MetaRowIsNumbers(body, row);
      var made := p.payload.(epoch := row[0].number, registryGeneration := row[1].number);
      assert row == MetaRow(made);
      if TakesInMeta(p, [body], next)
         && forall kind :: 2 <= kind <= 5 ==> Listed(next.payload, kind) == Listed(p.payload, kind)
      {
        assert MetaRow(next.payload) == row;
        SamePayload(next.payload, made);
      }
    }
  }

  /** What a record of another kind adds. */
  lemma RowAdded(g: Grammar, p: Progress, kind: nat, body: seq<byte>, next: Progress)
    requires 2 <= kind <= 5
    ensures AddRecord(g, p, kind, body) == Ok(next) <==>
              && next.sawMeta == p.sawMeta && MetaRow(next.payload) == MetaRow(p.payload)
              && TakesIn(ShapeOf(g, kind), Listed(p.payload, kind), [body], Listed(next.payload, kind))
              && |Listed(next.payload, kind)| <= BoundOf(kind)
              && forall other :: 2 <= other <= 5 && other != kind ==>
                                   Listed(next.payload, other) == Listed(p.payload, other)
  {
    hide AddRecord, ReadWhole, ShapeOf;
    AddListed(g, p, kind, body);
    var before, after := Listed(p.payload, kind), Listed(next.payload, kind);
    TakesOne(ShapeOf(g, kind), before, body, after);
    hide TakesIn;
    if ReadWhole(ShapeOf(g, kind), body).Ok? {
      var made := WithListed(p.payload, kind, before + [ReadWhole(ShapeOf(g, kind), body).value]);
      if AddRecord(g, p, kind, body) == Ok(next) {
        assert next.payload == made;
      } else if TakesIn(ShapeOf(g, kind), before, [body], after) && MetaRow(next.payload) == MetaRow(p.payload)
             && forall other :: 2 <= other <= 5 && other != kind ==>
                                  Listed(next.payload, other) == Listed(p.payload, other)
      {
        SamePayload(next.payload, made);
      }
    }
  }

  lemma OnlyKinds(g: Grammar, p: Progress, kind: nat, body: seq<byte>)
    ensures AddRecord(g, p, kind, body).Ok? ==> 1 <= kind <= 5
  {
  }

  // ----- all records -----

  /** The first record added, then the others collected. */
  lemma CollectsOneMore(g: Grammar, p: Progress, first: Cut, next: Progress, others: seq<Cut>, q: Progress)
    requires |first.body| < TWO_TO_32 && AddRecord(g, p, first.kind, first.body) == Ok(next)
    requires Collects(g, next, others, q)
    ensures Collects(g, p, [first] + others, q)
  {
    hide AddRecord, ReadWhole, ShapeOf, BodiesOf, BoundOf, Listed, MetaShape, TakesIn;
    OnlyKinds(g, p, first.kind, first.body);
    if first.kind == 1 {
      MetaAdded(g, p, first.body, next);
    } else {
      RowAdded(g, p, first.kind, first.body, next);
    }
    BodiesOfMore(first, others, 1);
    assert first.kind == 1 ==> [first.body] + BodiesOf(others, 1) != [];
    forall kind | 2 <= kind <= 5 ensures TakesInKind(g, p, [first] + others, q, kind) {
      BodiesOfMore(first, others, kind);
      assert TakesInKind(g, next, others, q, kind);
      assert [] + BodiesOf(others, kind) == BodiesOf(others, kind);
      if kind == first.kind {
        TakesMore(ShapeOf(g, kind), Listed(p.payload, kind), first.body, Listed(next.payload, kind),
                  BodiesOf(others, kind), Listed(q.payload, kind));
      }
    }
  }

  lemma TakesMore(shapes: seq<Shape>, before: seq<Row>, body: seq<byte>, middle: seq<Row>, bodies: seq<seq<byte>>,
                  after: seq<Row>)
    requires TakesIn(shapes, before, [body], middle) && TakesIn(shapes, middle, bodies, after)
    ensures TakesIn(shapes, before, [body] + bodies, after)
  {
    hide ReadWhole;
    assert after[..|before|] == after[..|middle|][..|before|];
    var all := [body] + bodies;
    forall i | 0 <= i < |all| ensures ReadWhole(shapes, all[i]) == Ok(after[|before| + i]) {
      if i == 0 {
        assert ReadWhole(shapes, [body][0]) == Ok(middle[|before| + 0]);
        assert middle[|before|] == after[..|middle|][|before|];
      } else {
        assert ReadWhole(shapes, bodies[i - 1]) == Ok(after[|middle| + (i - 1)]);
      }
    }
  }

  lemma TakesFirst(shapes: seq<Shape>, before: seq<Row>, body: seq<byte>, bodies: seq<seq<byte>>, after: seq<Row>)
    requires TakesIn(shapes, before, [body] + bodies, after)
    ensures var middle := after[..|before| + 1];
            TakesIn(shapes, before, [body], middle) && TakesIn(shapes, middle, bodies, after)
  {
    hide ReadWhole;
    var all, middle := [body] + bodies, after[..|before| + 1];
    assert ReadWhole(shapes, all[0]) == Ok(after[|before| + 0]);
    assert middle[..|before|] == after[..|before|];
    forall i | 0 <= i < |bodies| ensures ReadWhole(shapes, bodies[i]) == Ok(after[|middle| + i]) {
      assert ReadWhole(shapes, all[i + 1]) == Ok(after[|before| + (i + 1)]);
    }
  }

  /** What is left to collect after the first record. */
  lemma CollectsRest(g: Grammar, p: Progress, first: Cut, others: seq<Cut>, q: Progress) returns (next: Progress)
    requires Collects(g, p, [first] + others, q)
    ensures AddRecord(g, p, first.kind, first.body) == Ok(next) && Collects(g, next, others, q)
  {
    hide AddRecord, ReadWhole, ShapeOf, BodiesOf, BoundOf, MetaShape, TakesIn, TakesInKind, Listed, WithListed;
    var all := [first] + others;
    assert first in all && IsRecord(first);
    forall cut | cut in others ensures IsRecord(cut) {
      assert cut in all;
    }
    BodiesOfMore(first, others, 1);
    if first.kind == 1 {
      assert BodiesOf(all, 1) == [first.body] + BodiesOf(others, 1) != [];
      assert BodiesOf(others, 1) == [] && BodiesOf(all, 1)[0] == first.body;
      next := Progress(p.payload.(epoch := q.payload.epoch, registryGeneration := q.payload.registryGeneration), true);
      MetaChangesNoList(p.payload, q.payload.epoch, q.payload.registryGeneration);
      MetaAdded(g, p, first.body, next);
    } else {
      assert [] + BodiesOf(others, 1) == BodiesOf(others, 1);
      next := RowFirst(g, p, first, others, q);
    }
    forall kind | 2 <= kind <= 5 ensures TakesInKind(g, next, others, q, kind) {
      assert TakesInKind(g, p, all, q, kind);
      if kind != first.kind {
        SameListRest(g, p, first, others, next, q, kind);
      }
    }
  }

  lemma MetaChangesNoList(p: Payload, epoch: nat, generation: nat)
    ensures forall kind :: Listed(p.(epoch := epoch, registryGeneration := generation), kind) == Listed(p, kind)
  {
  }

  lemma RowFirst(g: Grammar, p: Progress, first: Cut, others: seq<Cut>, q: Progress) returns (next: Progress)
    requires 2 <= first.kind <= 5 && TakesInKind(g, p, [first] + others, q, first.kind)
    ensures AddRecord(g, p, first.kind, first.body) == Ok(next)
    ensures next.sawMeta == p.sawMeta && MetaRow(next.payload) == MetaRow(p.payload)
    ensures TakesInKind(g, next, others, q, first.kind)
    ensures forall other :: 2 <= other <= 5 && other != first.kind ==>
                              Listed(next.payload, other) == Listed(p.payload, other)
  {
    hide AddRecord, ReadWhole, ShapeOf, BodiesOf, BoundOf, TakesIn;
    var kind := first.kind;
    BodiesOfMore(first, others, kind);
    var before, after := Listed(p.payload, kind), Listed(q.payload, kind);
    TakesFirst(ShapeOf(g, kind), before, first.body, BodiesOf(others, kind), after);
    TakesInLength(ShapeOf(g, kind), before, [first.body] + BodiesOf(others, kind), after);
    next := p.(payload := WithListed(p.payload, kind, after[..|before| + 1]));
    RowAdded(g, p, kind, first.body, next);
  }

  lemma SameListRest(g: Grammar, p: Progress, first: Cut, others: seq<Cut>, next: Progress, q: Progress, kind: nat)
    requires kind != first.kind && TakesInKind(g, p, [first] + others, q, kind)
    requires Listed(next.payload, kind) == Listed(p.payload, kind)
    ensures TakesInKind(g, next, others, q, kind)
  {
    hide ReadWhole, ShapeOf, BodiesOf, BoundOf, TakesIn, Listed;
    BodiesOfMore(first, others, kind);
    assert [] + BodiesOf(others, kind) == BodiesOf(others, kind);
  }

  lemma TakesInLength(shapes: seq<Shape>, before: seq<Row>, bodies: seq<seq<byte>>, after: seq<Row>)
    requires TakesIn(shapes, before, bodies, after)
    ensures |after| == |before| + |bodies|
  {
  }

  lemma Regroup(a: seq<byte>, b: seq<byte>, c: seq<byte>)
    ensures a + (b + c) == a + b + c
  {
  }

  lemma CutIsWritten(remaining: seq<byte>)
    requires CutRecord(remaining).Parsed?
    ensures var cut := CutRecord(remaining);
            && |cut.value.body| < TWO_TO_32
            && remaining == Record(cut.value.kind, cut.value.body) + cut.rest
  {
    hide ReadU8, WriteU8, ReadU32, WriteU32;
    UnsignedIsWritten(remaining);
    var kind := ReadU8(remaining);
    UnsignedIsWritten(kind.rest);
    NumbersRead(kind.rest);
    var length := ReadU32(kind.rest);
    var body, rest := length.rest[..length.value], length.rest[length.value..];
    assert length.rest == body + rest;
    Chain3(remaining, WriteU8(kind.value), kind.rest, WriteU32(length.value), length.rest, body, rest);
    Regroup(WriteU8(kind.value), WriteU32(length.value), body);
  }

  lemma NothingCollected(g: Grammar, p: Progress, q: Progress)
    requires WithinBounds(p)
    ensures Collects(g, p, [], q) <==> q == p
  {
    hide ReadWhole, ShapeOf, TakesIn;
    forall kind ensures BodiesOf([], kind) == [] {
    }
    forall kind | 2 <= kind <= 5
      ensures TakesInKind(g, p, [], q, kind) <==> Listed(q.payload, kind) == Listed(p.payload, kind)
    {
      TakesNothing(ShapeOf(g, kind), Listed(p.payload, kind), Listed(q.payload, kind));
    }
    hide TakesInKind, BodiesOf;
    if Collects(g, p, [], q) {
      SamePayload(q.payload, p.payload);
    }
  }

  lemma AddingStaysWithin(g: Grammar, p: Progress, kind: nat, body: seq<byte>, next: Progress)
    requires WithinBounds(p) && AddRecord(g, p, kind, body) == Ok(next)
    ensures WithinBounds(next)
  {
    hide AddRecord, ReadWhole, ShapeOf, TakesIn, BoundOf, Listed;
    OnlyKinds(g, p, kind, body);
    if kind == 1 {
      MetaAdded(g, p, body, next);
    } else {
      RowAdded(g, p, kind, body, next);
    }
    forall other | 2 <= other <= 5 ensures |Listed(next.payload, other)| <= BoundOf(other) {
    }
  }

  lemma {:induction false} DecodedWasCollected(g: Grammar, p: Progress, q: Progress, remaining: seq<byte>)
    returns (cuts: seq<Cut>)
    requires WithinBounds(p) && DecodeRecords(g, p, remaining) == Ok(q)
    ensures remaining == Written(cuts) && Collects(g, p, cuts, q)
    decreases |remaining|
  {
    hide AddRecord, CutRecord, Collects, Record, WithinBounds;
    if remaining == [] {
      cuts := [];
      NothingCollected(g, p, q);
    } else {
      var cut := CutRecord(remaining);
      CutIsWritten(remaining);
      var next := AddRecord(g, p, cut.value.kind, cut.value.body).value;
      AddingStaysWithin(g, p, cut.value.kind, cut.value.body, next);
      var others := DecodedWasCollected(g, next, q, cut.rest);
      cuts := [cut.value] + others;
      BodiesOfMore(cut.value, others, 1);
      CollectsOneMore(g, p, cut.value, next, others, q);
    }
  }

  lemma {:induction false} CollectedIsDecoded(g: Grammar, p: Progress, cuts: seq<Cut>, q: Progress)
    requires WithinBounds(p) && Collects(g, p, cuts, q)
    ensures DecodeRecords(g, p, Written(cuts)) == Ok(q)
    decreases |cuts|
  {
    hide AddRecord, Collects, Record, WithinBounds, DecodeRecords;
    if cuts == [] {
      NothingCollected(g, p, q);
      assert DecodeRecords(g, p, []) == Ok(p) by {
        NothingLeft(g, p);
      }
    } else {
      var first, others := cuts[0], cuts[1..];
      assert cuts == [first] + others;
      BodiesOfMore(first, others, 1);
      var next := CollectsRest(g, p, first, others, q);
      AddingStaysWithin(g, p, first.kind, first.body, next);
      CollectedIsDecoded(g, next, others, q);
      CollectedAreRecords(g, p, cuts, q);
      assert first in cuts && IsRecord(first);
      DecodeOne(g, p, next, first.kind, first.body, Written(others));
    }
  }

  lemma NothingLeft(g: Grammar, p: Progress)
    ensures DecodeRecords(g, p, []) == Ok(p)
  {
  }

  lemma CollectedAreRecords(g: Grammar, p: Progress, cuts: seq<Cut>, q: Progress)
    requires Collects(g, p, cuts, q)
    ensures forall cut :: cut in cuts ==> IsRecord(cut)
  {
  }

  // ----- the law of the decoder -----

  /** The list holds the rows of the bodies, in order. */
  ghost predicate ListsRows(shapes: seq<Shape>, bodies: seq<seq<byte>>, rows: seq<Row>) {
    |rows| == |bodies| && forall i :: 0 <= i < |rows| ==> ReadWhole(shapes, bodies[i]) == Ok(rows[i])
  }

  /** The records are one of the meta kind and those of the lists, in whatever order they come. */
  ghost predicate Records(g: Grammar, cuts: seq<Cut>, p: Payload) {
    && (forall cut :: cut in cuts ==> IsRecord(cut))
    && ListsRows(MetaShape(), BodiesOf(cuts, 1), [[NumberDatum(p.epoch), NumberDatum(p.registryGeneration)]])
    && ListsRows(GrantShape(g), BodiesOf(cuts, 2), p.authorities) && |p.authorities| <= 4096
    && ListsRows(FenceShape(), BodiesOf(cuts, 3), p.fences) && |p.fences| <= 65536
    && ListsRows(EntityShape(g), BodiesOf(cuts, 4), p.entities) && |p.entities| <= 1_000_000
    && ListsRows(RegistrationShape(), BodiesOf(cuts, 5), p.registrations) && |p.registrations| <= 4096
  }

  lemma TakesAll(shapes: seq<Shape>, bodies: seq<seq<byte>>, rows: seq<Row>)
    ensures TakesIn(shapes, [], bodies, rows) <==> ListsRows(shapes, bodies, rows)
  {
    hide ReadWhole;
    if TakesIn(shapes, [], bodies, rows) {
      forall i | 0 <= i < |rows| ensures ReadWhole(shapes, bodies[i]) == Ok(rows[i]) {
        assert ReadWhole(shapes, bodies[i]) == Ok(rows[0 + i]);
      }
    }
  }

  lemma CollectedFromNothing(g: Grammar, cuts: seq<Cut>, p: Payload)
    ensures Collects(g, Progress(EMPTY, false), cuts, Progress(p, true)) <==> Records(g, cuts, p)
  {
    hide ReadWhole, GrantShape, FenceShape, EntityShape, RegistrationShape, MetaShape, BodiesOf, TakesIn;
    var start, end := Progress(EMPTY, false), Progress(p, true);
    TakesAll(GrantShape(g), BodiesOf(cuts, 2), p.authorities);
    TakesAll(FenceShape(), BodiesOf(cuts, 3), p.fences);
    TakesAll(EntityShape(g), BodiesOf(cuts, 4), p.entities);
    TakesAll(RegistrationShape(), BodiesOf(cuts, 5), p.registrations);
    if Collects(g, start, cuts, end) {
      assert TakesInKind(g, start, cuts, end, 2) && TakesInKind(g, start, cuts, end, 3);
      assert TakesInKind(g, start, cuts, end, 4) && TakesInKind(g, start, cuts, end, 5);
    }
    if Records(g, cuts, p) {
      assert ReadWhole(MetaShape(), BodiesOf(cuts, 1)[0]) == Ok(MetaRow(p));
      forall kind | 2 <= kind <= 5 ensures TakesInKind(g, start, cuts, end, kind) {
      }
    }
  }

  /** Bytes are decoded to a payload exactly when they are a sequence of its records. */
  lemma DecodedExactly(g: Grammar, bytes: seq<byte>, p: Payload)
    ensures Decode(g, bytes) == Ok(p) <==> exists cuts :: bytes == Written(cuts) && Records(g, cuts, p)
  {
    hide DecodeRecords, Collects, Records;
    var start := Progress(EMPTY, false);
    assert WithinBounds(start);
    hide WithinBounds;
    if Decode(g, bytes) == Ok(p) {
      var cuts := DecodedWasCollected(g, start, Progress(p, true), bytes);
      CollectedFromNothing(g, cuts, p);
    }
    if cuts :| bytes == Written(cuts) && Records(g, cuts, p) {
      CollectedFromNothing(g, cuts, p);
      CollectedIsDecoded(g, start, cuts, Progress(p, true));
    }
  }
}
