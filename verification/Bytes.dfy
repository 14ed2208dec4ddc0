/** The primitives every codec rests on: fixed width little-endian integers,
    booleans and length-prefixed strings, as functions on byte sequences and as the
    writer that appends and the reader that advances. */
module Bytes {
  import opened Values

  datatype CodecError =
    | MalformedEncoding | PayloadTooLarge | TextTooLong | ValueOutOfRange | ValueNotCanonical | ValueTypeMismatch
    | ValueContradiction | TooManyItems | EmptyCollection | DuplicateValue | UnknownEnumDomain | MalformedIdentifier
    | FrameMalformed | FrameVersionUnsupported | FrameTypeUnknown | FrameTooLarge | FrameTrailingBytes
    | FrameIntegrityFailure | PersistenceCorrupt | PersistenceLimitExceeded | PersistenceDuplicateRecord
    | PersistenceFormatInvalid | PersistenceIntegrityFailure | PersistenceVersionUnsupported

  datatype Result<+T> = Ok(value: T) | Err(error: CodecError)

  /** A value read from the front of the input, and what is left of it. */
  datatype Parse<+T> = Parsed(value: T, rest: seq<byte>) | Failed(error: CodecError)

  const TWO_TO_63: int := 0x8000_0000_0000_0000
  const TWO_TO_64: int := 0x1_0000_0000_0000_0000

  // ----- unsigned integers -----

  function Power256(width: nat): (power: nat)
    ensures power > 0
  {
    if width == 0 then 1 else 256 * Power256(width - 1)
  }

  /** The low bytes of n, lowest first. */
  function LittleEndian(n: nat, width: nat): (bytes: seq<byte>)
    ensures |bytes| == width
  {
    if width == 0 then [] else [n % 256] + LittleEndian(n / 256, width - 1)
  }

  function FromLittleEndian(bytes: seq<byte>): nat {
    if bytes == [] then 0 else bytes[0] + 256 * FromLittleEndian(bytes[1..])
  }

  lemma {:induction false} LittleEndianRoundTrip(n: nat, width: nat)
    requires n < Power256(width)
    ensures FromLittleEndian(LittleEndian(n, width)) == n
  {
    if width > 0 {
      LittleEndianRoundTrip(n / 256, width - 1);
      assert LittleEndian(n, width)[1..] == LittleEndian(n / 256, width - 1);
    }
  }

  lemma {:induction false} FromLittleEndianRoundTrip(bytes: seq<byte>)
    ensures FromLittleEndian(bytes) < Power256(|bytes|)
    ensures LittleEndian(FromLittleEndian(bytes), |bytes|) == bytes
  {
    if bytes != [] {
      FromLittleEndianRoundTrip(bytes[1..]);
      var n := FromLittleEndian(bytes);
      assert n % 256 == bytes[0] && n / 256 == FromLittleEndian(bytes[1..]);
      assert bytes == [bytes[0]] + bytes[1..];
    }
  }

  /** The number stored at an offset. */
  function NumberFrom(bytes: seq<byte>, offset: nat, width: nat): nat
    requires offset + width <= |bytes|
  {
    FromLittleEndian(bytes[offset..offset + width])
  }

  lemma NumberAt(bytes: seq<byte>, front: seq<byte>, n: nat, width: nat, back: seq<byte>)
    requires bytes == front + LittleEndian(n, width) + back && n < Power256(width)
    ensures NumberFrom(bytes, |front|, width) == n
  {
    LittleEndianRoundTrip(n, width);
    assert bytes[|front|..|front| + width] == LittleEndian(n, width);
  }

  lemma NumberIsWritten(bytes: seq<byte>, offset: nat, width: nat)
    requires offset + width <= |bytes|
    ensures NumberFrom(bytes, offset, width) < Power256(width)
    ensures bytes[offset..offset + width] == LittleEndian(NumberFrom(bytes, offset, width), width)
  {
    FromLittleEndianRoundTrip(bytes[offset..offset + width]);
  }

  lemma Powers()
    ensures Power256(1) == 0x100 && Power256(2) == 0x1_0000 && Power256(4) == 0x1_0000_0000 && Power256(8) == TWO_TO_64
  {
  }

  function ReadUnsigned(input: seq<byte>, width: nat): Parse<nat> {
    if |input| < width then Failed(MalformedEncoding) else Parsed(FromLittleEndian(input[..width]), input[width..])
  }

  lemma ReadWritten(n: nat, width: nat, rest: seq<byte>)
    requires n < Power256(width)
    ensures ReadUnsigned(LittleEndian(n, width) + rest, width) == Parsed(n, rest)
  {
  }

  lemma ReadIsWritten(input: seq<byte>, width: nat)
    requires ReadUnsigned(input, width).Parsed?
    ensures var read := ReadUnsigned(input, width);
            read.value < Power256(width) && input == LittleEndian(read.value, width) + read.rest
  {
    FromLittleEndianRoundTrip(input[..width]);
    assert input == input[..width] + input[width..];
  }

  // ----- signed integers (two's complement) and booleans -----

  function WriteSigned(i: int): seq<byte> {
    LittleEndian(i % TWO_TO_64, 8)
  }

  function ReadSigned(input: seq<byte>): Parse<int> {
    match ReadUnsigned(input, 8)
    case Failed(error) => Failed(error)
    case Parsed(n, rest) => Parsed(if n < TWO_TO_63 then n else n - TWO_TO_64, rest)
  }

  lemma SignedRoundTrip(i: int, rest: seq<byte>)
    requires -TWO_TO_63 <= i < TWO_TO_63
    ensures ReadSigned(WriteSigned(i) + rest) == Parsed(i, rest)
  {
    Powers();
    assert i % TWO_TO_64 == if i < 0 then i + TWO_TO_64 else i;
    ReadWritten(i % TWO_TO_64, 8, rest);
  }

  function WriteBool(b: bool): seq<byte> { [if b then 1 else 0] }

  function ReadBool(input: seq<byte>): Parse<bool> {
    match ReadUnsigned(input, 1)
    case Failed(error) => Failed(error)
    case Parsed(n, rest) => if n > 1 then Failed(MalformedEncoding) else Parsed(n == 1, rest)
  }

  lemma BoolRoundTrip(b: bool, rest: seq<byte>)
    ensures ReadBool(WriteBool(b) + rest) == Parsed(b, rest)
  {
    Powers();
    var n := if b then 1 else 0;
    assert LittleEndian(n / 256, 0) == [];
    assert WriteBool(b) == LittleEndian(n, 1);
    ReadWritten(n, 1, rest);
  }

  // ----- length-prefixed strings -----

  function WriteString(data: seq<byte>): seq<byte> { LittleEndian(|data|, 4) + data }

  /** A declared length is checked against its bound before the data is looked at. */
  function ReadString(input: seq<byte>, limit: nat, tooLong: CodecError): Parse<seq<byte>> {
    match ReadUnsigned(input, 4)
    case Failed(error) => Failed(error)
    case Parsed(length, rest) =>
      if length > limit then Failed(tooLong)
      else if |rest| < length then Failed(MalformedEncoding)
      else Parsed(rest[..length], rest[length..])
  }

  lemma StringRoundTrip(data: seq<byte>, limit: nat, tooLong: CodecError, rest: seq<byte>)
    requires |data| <= limit && |data| < 0x1_0000_0000
    ensures ReadString(WriteString(data) + rest, limit, tooLong) == Parsed(data, rest)
  {
    Powers();
    assert WriteString(data) + rest == LittleEndian(|data|, 4) + (data + rest);
    ReadWritten(|data|, 4, data + rest);
    assert (data + rest)[..|data|] == data && (data + rest)[|data|..] == rest;
  }

  predicate Printable(b: byte) { b >= 0x20 && b != 0x7F }

  predicate ControlFree(text: Text) {
    forall i :: 0 <= i < |text| ==> Printable(text[i])
  }

  function ReadBytes(input: seq<byte>, limit: nat): Parse<seq<byte>> {
    ReadString(input, limit, PayloadTooLarge)
  }

  function ReadText(input: seq<byte>, limit: nat): Parse<Text> {
    match ReadString(input, limit, TextTooLong)
    case Failed(error) => Failed(error)
    case Parsed(text, rest) => if ControlFree(text) then Parsed(text, rest) else Failed(MalformedEncoding)
  }

  lemma TextRoundTrip(text: Text, limit: nat, rest: seq<byte>)
    requires |text| <= limit && |text| < 0x1_0000_0000 && ControlFree(text)
    ensures ReadText(WriteString(text) + rest, limit) == Parsed(text, rest)
  {
    StringRoundTrip(text, limit, TextTooLong, rest);
  }

  // ----- lists -----

  function WriteList<T>(write: T -> seq<byte>, items: seq<T>): seq<byte> {
    if items == [] then [] else WriteList(write, items[..|items| - 1]) + write(items[|items| - 1])
  }

  function ReadList<T>(read: seq<byte> -> Parse<T>, count: nat, input: seq<byte>): (list: Parse<seq<T>>)
    ensures list.Parsed? ==> |list.value| == count
  {
    if count == 0 then Parsed([], input)
    else
      match ReadList(read, count - 1, input)
      case Failed(error) => Failed(error)
      case Parsed(front, rest) =>
        match read(rest)
        case Failed(error) => Failed(error)
        case Parsed(last, tail) => Parsed(front + [last], tail)
  }

  /** Writing an item and reading it back gives the item and leaves the rest. */
  ghost predicate RoundTrips<T>(write: T -> seq<byte>, read: seq<byte> -> Parse<T>, item: T) {
    forall rest :: read(write(item) + rest) == Parsed(item, rest)
  }

  lemma {:induction false} ListRoundTrip<T(!new)>(write: T -> seq<byte>, read: seq<byte> -> Parse<T>, items: seq<T>,
                                           rest: seq<byte>)
    requires forall item :: item in items ==> RoundTrips(write, read, item)
    ensures ReadList(read, |items|, WriteList(write, items) + rest) == Parsed(items, rest)
    decreases |items|
  {
    if items == [] {
      assert WriteList(write, items) + rest == rest;
    } else {
      var n := |items| - 1;
      var last := write(items[n]);
      assert WriteList(write, items) + rest == WriteList(write, items[..n]) + (last + rest);
      ListRoundTrip(write, read, items[..n], last + rest);
      assert items == items[..n] + [items[n]] && RoundTrips(write, read, items[n]);
    }
  }

  /** Everything a list reader returns was returned by the item reader. */
  lemma {:induction false} ListItemsWereRead<T>(read: seq<byte> -> Parse<T>, good: T -> bool, count: nat,
                                                input: seq<byte>)
    requires forall i :: read(i).Parsed? ==> good(read(i).value)
    requires ReadList(read, count, input).Parsed?
    ensures forall item :: item in ReadList(read, count, input).value ==> good(item)
  {
    if count > 0 {
      ListItemsWereRead(read, good, count - 1, input);
    }
  }

  // ----- the writer and the reader -----

  lemma {:induction false} FromLittleEndianSnoc(bytes: seq<byte>, last: byte)
    ensures FromLittleEndian(bytes + [last]) == FromLittleEndian(bytes) + Power256(|bytes|) * last
  {
    if bytes == [] {
      assert bytes + [last] == [last] && [last][1..] == [];
    } else {
      FromLittleEndianSnoc(bytes[1..], last);
      assert (bytes + [last])[1..] == bytes[1..] + [last];
      var p, f := Power256(|bytes| - 1), FromLittleEndian(bytes[1..]);
      assert 256 * (f + p * last) == 256 * f + (256 * p) * last;
    }
  }

  class ByteWriter {
    var out: seq<byte>

    constructor ()
      ensures out == []
    {
      out := [];
    }

    /** U8, U16, U32 and U64: one byte per shift of eight bits. */
    method Unsigned(n: nat, width: nat)
      modifies this
      ensures out == old(out) + LittleEndian(n, width)
    {
      var left := n;
      for i := 0 to width
        invariant out + LittleEndian(left, width - i) == old(out) + LittleEndian(n, width)
      {
        assert LittleEndian(left, width - i) == [left % 256] + LittleEndian(left / 256, width - i - 1);
        out := out + [left % 256];
        left := left / 256;
      }
    }

    method Signed(i: int)
      modifies this
      ensures out == old(out) + WriteSigned(i)
    {
      Unsigned(i % TWO_TO_64, 8);
    }

    method Bool(b: bool)
      modifies this
      ensures out == old(out) + WriteBool(b)
    {
      out := out + [if b then 1 else 0];
    }

    /** Bytes and Text: refused, with nothing written, when too long. */
    method String(data: seq<byte>, limit: nat, tooLong: CodecError) returns (written: Result<()>)
      requires limit < 0x1_0000_0000
      modifies this
      ensures written == if |data| > limit then Err(tooLong) else Ok(())
      ensures out == if |data| > limit then old(out) else old(out) + WriteString(data)
    {
      if |data| > limit {
        return Err(tooLong);
      }
      Unsigned(|data|, 4);
      out := out + data;
      return Ok(());
    }
  }

  /** The outcome of a reader call against what the specification reads. */
  ghost predicate Agrees<T>(outcome: Result<T>, parse: Parse<T>, left: seq<byte>) {
    match parse
    case Parsed(value, rest) => outcome == Ok(value) && left == rest
    case Failed(error) => outcome == Err(error)
  }

  class ByteReader {
    const input: seq<byte>
    var offset: nat

    ghost predicate Valid()
      reads this
    {
      offset <= |input|
    }

    ghost function Left(): seq<byte>
      requires Valid()
      reads this
    {
      input[offset..]
    }

    constructor (input: seq<byte>)
      ensures Valid() && Left() == input
    {
      this.input := input;
      offset := 0;
    }

    method Unsigned(width: nat) returns (outcome: Result<nat>)
      requires Valid()
      modifies this
      ensures Valid() && Agrees(outcome, ReadUnsigned(old(Left()), width), Left())
    {
      if |input| - offset < width {
        return Err(MalformedEncoding);
      }
      var value: nat, scale: nat := 0, 1;
      for i := 0 to width
        invariant offset == old(offset)
        invariant value == FromLittleEndian(input[offset..offset + i]) && scale == Power256(i)
      {
        FromLittleEndianSnoc(input[offset..offset + i], input[offset + i]);
        assert input[offset..offset + i + 1] == input[offset..offset + i] + [input[offset + i]];
        value := value + scale * input[offset + i];
        scale := 256 * scale;
      }
      assert input[offset..][..width] == input[offset..offset + width];
      offset := offset + width;
      return Ok(value);
    }

    method Signed() returns (outcome: Result<int>)
      requires Valid()
      modifies this
      ensures Valid() && Agrees(outcome, ReadSigned(old(Left())), Left())
    {
      var raw := Unsigned(8);
      match raw
      case Err(error) => return Err(error);
      case Ok(n) => return Ok(if n < TWO_TO_63 then n else n - TWO_TO_64);
    }

    method Bool() returns (outcome: Result<bool>)
      requires Valid()
      modifies this
      ensures Valid() && Agrees(outcome, ReadBool(old(Left())), Left())
    {
      var raw := Unsigned(1);
      match raw
      case Err(error) => return Err(error);
      case Ok(n) =>
        if n > 1 {
          return Err(MalformedEncoding);
        }
        return Ok(n == 1);
    }

    method String(limit: nat, tooLong: CodecError) returns (outcome: Result<seq<byte>>)
      requires Valid()
      modifies this
      ensures Valid() && Agrees(outcome, ReadString(old(Left()), limit, tooLong), Left())
    {
      var raw := Unsigned(4);
      match raw
      case Err(error) => return Err(error);
      case Ok(length) =>
        if length > limit {
          return Err(tooLong);
        }
        if |input| - offset < length {
          return Err(MalformedEncoding);
        }
        var data := input[offset..offset + length];
        assert Left()[..length] == data;
        offset := offset + length;
        return Ok(data);
    }

    method Text(limit: nat) returns (outcome: Result<Text>)
      requires Valid()
      modifies this
      ensures Valid() && Agrees(outcome, ReadText(old(Left()), limit), Left())
    {
      var raw := String(limit, TextTooLong);
      match raw
      case Err(error) => return Err(error);
      case Ok(text) =>
        for index := 0 to |text|
          invariant Valid() && ControlFree(text[..index])
          invariant Agrees(raw, ReadString(old(Left()), limit, TextTooLong), Left())
        {
          if text[index] < 0x20 || text[index] == 0x7F {
            assert !ControlFree(text);
            return Err(MalformedEncoding);
          }
          assert text[..index + 1] == text[..index] + [text[index]];
        }
        assert text[..|text|] == text;
        return Ok(text);
    }
  }
}
