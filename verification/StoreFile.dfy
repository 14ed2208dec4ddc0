/** The store file: a 64 byte header that carries the length and the SHA-256 digest
    of the payload, a CRC-32 over that header, and the payload. */
module StoreFile {
  import opened Values
  import opened Bytes
  import opened Crc32
  import opened ValueCodec
  import opened StorePayload
  import Sha256

  const STORE_MAGIC: seq<byte> := [0x46, 0x43, 0x52, 0x53, 0x54, 0x4F, 0x52, 0x45]
  const FORMAT_VERSION: nat := 1
  const FLAGS_NONE: nat := 0
  const CHECKED_BYTES: nat := 64
  const HEADER_BYTES: nat := 68
  const MAX_PERSISTENCE_BYTES: nat := 0x8000_0000

  /** The part of the header that the CRC covers. */
  function Header(count: nat, body: seq<byte>): (header: seq<byte>)
    ensures |header| == CHECKED_BYTES
  {
    STORE_MAGIC + WriteU32(FORMAT_VERSION) + WriteU32(FLAGS_NONE) + WriteU64(|body|) + WriteU64(count)
    + Sha256.Digest(body)
  }

  function FileOf(count: nat, body: seq<byte>): seq<byte> {
    Header(count, body) + WriteU32(Check(Header(count, body))) + body
  }

  /** The bytes WriteStore hands to the file system. */
  function WriteFile(g: Grammar, p: Payload): Result<seq<byte>> {
    match Encode(g, p)
    case Err(error) => Err(error)
    case Ok(body) =>
      if |body| > MAX_PERSISTENCE_BYTES then Err(PersistenceLimitExceeded) else Ok(FileOf(|p.entities|, body))
  }

  /** The bound on the whole file, ParseHeader, and the other checks ReadStore makes before it
      decodes the payload, in order. */
  function CheckFile(file: seq<byte>): (error: Result<seq<byte>>)
    ensures error.Ok? ==> |file| >= HEADER_BYTES && error.value == file[HEADER_BYTES..]
  {
    if |file| > MAX_PERSISTENCE_BYTES then Err(PersistenceLimitExceeded)
    else if |file| < HEADER_BYTES then Err(PersistenceCorrupt)
    else if file[..8] != STORE_MAGIC then Err(PersistenceFormatInvalid)
    else if NumberFrom(file, 64, 4) != Check(file[..CHECKED_BYTES]) then Err(PersistenceIntegrityFailure)
    else if NumberFrom(file, 8, 4) != FORMAT_VERSION then Err(PersistenceVersionUnsupported)
    else if |file| - HEADER_BYTES != NumberFrom(file, 16, 8) then Err(PersistenceCorrupt)
    else if Sha256.Digest(file[HEADER_BYTES..]) != file[32..64] then Err(PersistenceIntegrityFailure)
    else Ok(file[HEADER_BYTES..])
  }

  function ReadFile(g: Grammar, file: seq<byte>): Result<Payload> {
    match CheckFile(file)
    case Err(error) => Err(error)
    case Ok(body) => Decode(g, body)
  }

  lemma FileParts(count: nat, body: seq<byte>)
    requires |body| < TWO_TO_64
    ensures var file := FileOf(count, body);
            && |file| == HEADER_BYTES + |body| && file[..8] == STORE_MAGIC && NumberFrom(file, 8, 4) == FORMAT_VERSION
            && NumberFrom(file, 16, 8) == |body| && file[32..64] == Sha256.Digest(body)
            && file[..CHECKED_BYTES] == Header(count, body) && file[HEADER_BYTES..] == body
            && NumberFrom(file, 64, 4) == Check(Header(count, body))
  {
    hide LittleEndian, Check, Sha256.Digest, NumberFrom;
    Powers();
    var file := FileOf(count, body);
    var version, flags := WriteU32(FORMAT_VERSION), WriteU32(FLAGS_NONE);
    var length, entities, digest := WriteU64(|body|), WriteU64(count), Sha256.Digest(body);
    var check := Check(Header(count, body));
    var rest := WriteU32(check) + body;
    assert file == STORE_MAGIC + version + (flags + length + entities + digest + rest);
    assert file == (STORE_MAGIC + version + flags) + length + (entities + digest + rest);
    assert file == Header(count, body) + WriteU32(check) + body;
    NumberAt(file, STORE_MAGIC, FORMAT_VERSION, 4, flags + length + entities + digest + rest);
    NumberAt(file, STORE_MAGIC + version + flags, |body|, 8, entities + digest + rest);
    NumberAt(file, Header(count, body), check, 4, body);
  }

  /** Reading a written store decodes its payload, unless the whole file is over the bound. */
  lemma ReadingWritten(g: Grammar, p: Payload)
    requires WriteFile(g, p).Ok?
    ensures Encode(g, p).Ok? && |Encode(g, p).value| < TWO_TO_32
    ensures ReadFile(g, WriteFile(g, p).value) ==
            if |Encode(g, p).value| > MAX_PERSISTENCE_BYTES - HEADER_BYTES then Err(PersistenceLimitExceeded)
            else Decode(g, Encode(g, p).value)
  {
    hide Encode, Decode, NumberFrom, Check, Sha256.Digest, Header, FileOf;
    FileParts(|p.entities|, Encode(g, p).value);
  }

  /** A written store is read back as the payload it was written from exactly when that payload is in
      the decoder's bounds and the whole file, header included, is within the bound that the writer
      only puts on the payload. */
  lemma FileRoundTripsExactly(g: Grammar, p: Payload)
    requires WriteFile(g, p).Ok?
    ensures Encode(g, p).Ok?
    ensures ReadFile(g, WriteFile(g, p).value) == Ok(p) <==>
            Fits(g, p) && |Encode(g, p).value| <= MAX_PERSISTENCE_BYTES - HEADER_BYTES
  {
    hide Encode, Decode, Fits, WriteFile, ReadFile;
    ReadingWritten(g, p);
    DecodesExactlyWhenFits(g, p);
  }

  /** An accepted file's payload has the length and the digest its header states. */
  lemma AcceptedMatchesHeader(g: Grammar, file: seq<byte>)
    requires ReadFile(g, file).Ok?
    ensures |file| >= HEADER_BYTES
    ensures file[64..HEADER_BYTES] == LittleEndian(Check(file[..CHECKED_BYTES]), 4)
    ensures NumberFrom(file, 16, 8) == |file| - HEADER_BYTES && file[32..64] == Sha256.Digest(file[HEADER_BYTES..])
    ensures Decode(g, file[HEADER_BYTES..]) == ReadFile(g, file)
  {
    hide Decode, Check, Sha256.Digest;
    FromLittleEndianRoundTrip(file[64..HEADER_BYTES]);
  }

  lemma AcceptedNeighboursAgree(g: Grammar, a: seq<byte>, b: seq<byte>, i: nat)
    requires ReadFile(g, a).Ok? && ReadFile(g, b).Ok? && |a| == |b| && i < HEADER_BYTES
    requires forall j :: 0 <= j < |a| && j != i ==> a[j] == b[j]
    ensures a == b
  {
    hide ReadFile, Decode, Check, LittleEndian, Sha256.Digest, NumberFrom;
    AcceptedMatchesHeader(g, a);
    AcceptedMatchesHeader(g, b);
    var x, y := Check(a[..CHECKED_BYTES]), Check(b[..CHECKED_BYTES]);
    if i < CHECKED_BYTES {
      assert a[64..HEADER_BYTES] == b[64..HEADER_BYTES];
      Powers();
      LittleEndianRoundTrip(x, 4);
      LittleEndianRoundTrip(y, 4);
      if a[i] != b[i] {
        OneByteChangesCheck(a[..CHECKED_BYTES], b[..CHECKED_BYTES], i);
      }
    } else {
      assert a[..CHECKED_BYTES] == b[..CHECKED_BYTES];
      assert a[64..HEADER_BYTES] == b[64..HEADER_BYTES];
      assert a[i] == a[64..HEADER_BYTES][i - 64] && b[i] == b[64..HEADER_BYTES][i - 64];
    }
  }

  /** A file whose header differs from a valid one in exactly one byte is rejected; a damaged
      payload is accepted only if it has the same SHA-256 digest. */
  lemma DamageIsNoticed(g: Grammar, file: seq<byte>, damaged: seq<byte>, i: nat)
    requires ReadFile(g, file).Ok? && |damaged| == |file| && i < |file| && damaged[i] != file[i]
    requires forall j :: 0 <= j < |file| && j != i ==> damaged[j] == file[j]
    ensures i < HEADER_BYTES ==> ReadFile(g, damaged).Err?
    ensures ReadFile(g, damaged).Ok? ==>
              |file| >= HEADER_BYTES && Sha256.Digest(damaged[HEADER_BYTES..]) == Sha256.Digest(file[HEADER_BYTES..])
  {
    hide ReadFile, Decode, Check, LittleEndian, Sha256.Digest, NumberFrom;
    if ReadFile(g, damaged).Ok? {
      AcceptedMatchesHeader(g, file);
      AcceptedMatchesHeader(g, damaged);
      if i < HEADER_BYTES {
        AcceptedNeighboursAgree(g, file, damaged, i);
      } else {
        assert file[32..64] == damaged[32..64];
      }
    }
  }

  // ----- writing and reading as they run -----

  method WriteStore(g: Grammar, p: Payload) returns (file: Result<seq<byte>>)
    ensures file == WriteFile(g, p)
  {
    hide Encode, LittleEndian, Check, Sha256.Digest;
    var encoded := EncodePayload(g, p);
    if encoded.Err? {
      return Err(encoded.error);
    }
    var body := encoded.value;
    if |body| > MAX_PERSISTENCE_BYTES {
      return Err(PersistenceLimitExceeded);
    }
    var digest := Sha256.ComputeDigest(body);
    var writer := new ByteWriter();
    writer.out := writer.out + STORE_MAGIC;
    writer.Unsigned(FORMAT_VERSION, 4);
    writer.Unsigned(FLAGS_NONE, 4);
    writer.Unsigned(|body|, 8);
    writer.Unsigned(|p.entities|, 8);
    writer.out := writer.out + digest;
    assert writer.out == Header(|p.entities|, body);
    var check := CheckOfTwo(writer.out[..CHECKED_BYTES], []);
    assert writer.out[..CHECKED_BYTES] + [] == Header(|p.entities|, body);
    writer.Unsigned(check, 4);
    return Ok(writer.out + body);
  }

  method NumberIn(file: seq<byte>, offset: nat, width: nat) returns (value: nat)
    requires offset + width <= |file|
    ensures value == NumberFrom(file, offset, width)
  {
    var reader := new ByteReader(file[offset..offset + width]);
    assert reader.Left()[..width] == file[offset..offset + width];
    var read := reader.Unsigned(width);
    value := read.value;
  }

  method ReadStore(g: Grammar, file: seq<byte>) returns (payload: Result<Payload>)
    ensures payload == ReadFile(g, file)
  {
    hide Decode, NumberFrom, Check, Sha256.Digest;
    if |file| > MAX_PERSISTENCE_BYTES {
      return Err(PersistenceLimitExceeded);
    }
    if |file| < HEADER_BYTES {
      return Err(PersistenceCorrupt);
    }
    if file[..8] != STORE_MAGIC {
      return Err(PersistenceFormatInvalid);
    }
    var stored := NumberIn(file, 64, 4);
    var computed := CheckOfTwo(file[..CHECKED_BYTES], []);
    assert file[..CHECKED_BYTES] + [] == file[..CHECKED_BYTES];
    if stored != computed {
      return Err(PersistenceIntegrityFailure);
    }
    var version := NumberIn(file, 8, 4);
    if version != FORMAT_VERSION {
      return Err(PersistenceVersionUnsupported);
    }
    var length := NumberIn(file, 16, 8);
    if length > |file| || |file| - HEADER_BYTES != length {
      return Err(PersistenceCorrupt);
    }
    var body := file[HEADER_BYTES..];
    var digest := Sha256.ComputeDigest(body);
    if digest != file[32..64] {
      return Err(PersistenceIntegrityFailure);
    }
    payload := DecodePayload(g, body);
  }
}
