/** What the refusal of a frame or of a store file says of its bytes. */
module WireRefusals {
  import opened Values
  import opened Bytes
  import Crc32
  import Frames
  import Sha256
  import StoreFile
  import StorePayload
  import StoreReading

  /** What an error says of the bytes of a frame: 24 bytes of header, the payload, 4 bytes of check. */
  predicate FrameFault(bytes: seq<byte>, error: CodecError) {
    if |bytes| < 24 then error.FrameMalformed?
    else
      var length := NumberFrom(bytes, 20, 4);
      match error
      case FrameMalformed => bytes[..4] != [0x46, 0x43, 0x52, 0x46] || |bytes| < 24 + length + 4
      case FrameVersionUnsupported => NumberFrom(bytes, 4, 2) != 1
      case FrameTypeUnknown => NumberFrom(bytes, 6, 2) > 9
      case FrameTooLarge => length > 1_048_576
      case FrameTrailingBytes => |bytes| > 24 + length + 4
      case FrameIntegrityFailure =>
        |bytes| == 24 + length + 4 && NumberFrom(bytes, 24 + length, 4) != Crc32.Check(bytes[..24 + length])
      case _ => false
  }

  /** A frame is refused exactly when it has a fault, and the error names one it has. */
  lemma FrameRefusedExactly(bytes: seq<byte>)
    ensures Frames.Decode(bytes).Err? ==> FrameFault(bytes, Frames.Decode(bytes).error)
    ensures Frames.Decode(bytes).Err? <==> exists error :: FrameFault(bytes, error)
  {
    hide NumberFrom, Crc32.Check;
    var verdict := Frames.Decode(bytes);
    if verdict.Ok? {
      forall error ensures !FrameFault(bytes, error) {
      }
    } else {
      assert FrameFault(bytes, verdict.error);
    }
  }

  /** What an error says of the bytes of a store file before its payload is looked at: 64 bytes that
      are checked, 4 bytes of check, and the payload. */
  predicate FileFault(file: seq<byte>, error: CodecError) {
    if |file| < 68 then error.PersistenceCorrupt?
    else
      match error
      case PersistenceLimitExceeded => |file| > 0x8000_0000
      case PersistenceFormatInvalid => file[..8] != [0x46, 0x43, 0x52, 0x53, 0x54, 0x4F, 0x52, 0x45]
      case PersistenceIntegrityFailure =>
        NumberFrom(file, 64, 4) != Crc32.Check(file[..64]) || file[32..64] != Sha256.Digest(file[68..])
      case PersistenceVersionUnsupported => NumberFrom(file, 8, 4) != 1
      case PersistenceCorrupt => NumberFrom(file, 16, 8) != |file| - 68
      case _ => false
  }

  lemma FileRefusedExactly(file: seq<byte>)
    ensures StoreFile.CheckFile(file).Err? ==> FileFault(file, StoreFile.CheckFile(file).error)
    ensures StoreFile.CheckFile(file).Err? <==> exists error :: FileFault(file, error)
  {
    hide NumberFrom, Crc32.Check, Sha256.Digest;
    var verdict := StoreFile.CheckFile(file);
    if verdict.Ok? {
      forall error ensures !FileFault(file, error) {
      }
    } else {
      assert FileFault(file, verdict.error);
    }
  }

  /** A file is read as a payload exactly when it has no fault and what follows its header is a sequence
      of the payload's records. */
  lemma FileReadExactly(g: StorePayload.Grammar, file: seq<byte>, p: StorePayload.Payload)
    ensures StoreFile.ReadFile(g, file) == Ok(p) <==>
              && |file| >= 68 && (forall error :: !FileFault(file, error))
              && exists cuts :: file[68..] == StoreReading.Written(cuts) && StoreReading.Records(g, cuts, p)
  {
    hide FileFault, StoreFile.CheckFile, StorePayload.Decode, StoreReading.Records;
    FileRefusedExactly(file);
    FaultlessIsLong(file);
    if forall error :: !FileFault(file, error) {
      StoreReading.DecodedExactly(g, file[68..], p);
    }
  }

  lemma FaultlessIsLong(file: seq<byte>)
    ensures !FileFault(file, PersistenceCorrupt) ==> |file| >= 68
  {
  }
}
