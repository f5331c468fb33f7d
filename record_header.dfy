/** The MFT record header decoder and its flag-byte decoder. */
module RecordHeaders {
  import opened Wrappers
  import opened Bytes

  const OffsetAttributesOffset: nat := 0x14
  const OffsetFlags: nat := 0x16
  const OffsetRecordNumber: nat := 0x2C
  /** The end of the last header field read: the record number. */
  const HeaderLength: nat := OffsetRecordNumber + 4

  /** "FILE0", the magic a record begins with. */
  const FileZero: seq<byte> := [0x46, 0x49, 0x4C, 0x45, 0x30]

  /** The bytes the decoder compares against the start of a record: some
      non-empty prefix of "FILE0" ("FILE" and "FILE0" both qualify). Every
      property below holds for each such choice. */
  predicate AdmissibleSignature(sig: seq<byte>)
  {
    0 < |sig| <= |FileZero| && sig == FileZero[..|sig|]
  }

  datatype RecordHeaderFlags = RecordHeaderFlags(flagDeleted: bool, flagDirectory: bool)

  /** A record's identity: where its attribute list starts, its ordinal in the
      table, and its flags. */
  datatype RecordHeader = RecordHeader(attributesOffset: uint16, recordNumber: uint32, flags: RecordHeaderFlags)

  /** Go's zero `RecordHeader`, which a receiver holds before `Parse`. */
  const ZeroHeader := RecordHeader(0, 0, RecordHeaderFlags(false, false))

  datatype HeaderError =
    | InvalidSignature  // the record does not begin with the signature
    | TruncatedHeader   // the record ends before the record-number field does

  /** The flag byte matched against whole values: 0x00 is a deleted record,
      0x03 an in-use directory, anything else neither. */
  function ParseFlags(inByte: byte): (f: RecordHeaderFlags)
    ensures f.flagDeleted <==> inByte == 0x00
    ensures f.flagDirectory <==> inByte == 0x03
    ensures !(f.flagDeleted && f.flagDirectory)
  {
    match inByte
    case 0x00 => RecordHeaderFlags(flagDeleted := true, flagDirectory := false)
    case 0x03 => RecordHeaderFlags(flagDeleted := false, flagDirectory := true)
    case _ => RecordHeaderFlags(flagDeleted := false, flagDirectory := false)
  }

  /** The bit-mask reading of the same byte (bit 0 in use, bit 1 directory),
      which the recorded behaviour does not follow. */
  function BitMaskFlags(inByte: byte): RecordHeaderFlags
  {
    RecordHeaderFlags(flagDeleted := inByte % 2 == 0, flagDirectory := (inByte / 2) % 2 == 1)
  }

  /** The two readings agree exactly on 0x00, 0x03 and the bytes whose two low
      bits are 01; 0x06 is one of the many bytes where they part. */
  lemma ExactMatchVersusBitMask(inByte: byte)
    ensures ParseFlags(inByte) == BitMaskFlags(inByte) <==> inByte == 0x00 || inByte == 0x03 || inByte % 4 == 1
  {
  }

  /** Decode a record header: check the signature, check that the record is
      long enough for the fields, then read them little-endian. */
  function ParseHeader(mftRecord: seq<byte>, sig: seq<byte>): (r: Result<RecordHeader, HeaderError>)
    requires AdmissibleSignature(sig)
    ensures r == Failure(InvalidSignature) <==> !(sig <= mftRecord)
    ensures r == Failure(TruncatedHeader) <==> sig <= mftRecord && |mftRecord| < HeaderLength
    ensures r.Success? ==>
      && |mftRecord| >= HeaderLength
      && ToLittleEndian(r.value.attributesOffset, 2) == mftRecord[0x14..0x16]
      && ToLittleEndian(r.value.recordNumber, 4) == mftRecord[0x2C..0x30]
      && r.value.flags == ParseFlags(mftRecord[0x16])
  {
    if !(sig <= mftRecord) then Failure(InvalidSignature)
    else if |mftRecord| < HeaderLength then Failure(TruncatedHeader)
    else Success(RecordHeader(
      attributesOffset := U16At(mftRecord, OffsetAttributesOffset),
      recordNumber := U32At(mftRecord, OffsetRecordNumber),
      flags := ParseFlags(mftRecord[OffsetFlags])))
  }

  /** A header-sized record built from chosen field values: `filler` supplies
      every byte the decoder does not read. */
  function LayOut(sig: seq<byte>, h: RecordHeader, flagByte: byte, filler: seq<byte>): (raw: seq<byte>)
    requires |sig| <= OffsetAttributesOffset && |filler| >= HeaderLength
    ensures |raw| == |filler|
  {
    var withSig := Overwrite(filler, 0, sig);
    var withOffset := Overwrite(withSig, OffsetAttributesOffset, ToLittleEndian(h.attributesOffset, 2));
    var withFlags := Overwrite(withOffset, OffsetFlags, [flagByte]);
    Overwrite(withFlags, OffsetRecordNumber, ToLittleEndian(h.recordNumber, 4))
  }

  /** Laying out a header and decoding it gives the fields back, whatever
      the other bytes of the record hold. */
  lemma {:induction false} LayOutThenParse(sig: seq<byte>, h: RecordHeader, flagByte: byte, filler: seq<byte>)
    requires AdmissibleSignature(sig) && |filler| >= HeaderLength
    requires h.flags == ParseFlags(flagByte)
    ensures ParseHeader(LayOut(sig, h, flagByte, filler), sig) == Success(h)
  {
    var raw := LayOut(sig, h, flagByte, filler);
    var withSig := Overwrite(filler, 0, sig);
    var withOffset := Overwrite(withSig, OffsetAttributesOffset, ToLittleEndian(h.attributesOffset, 2));
    var withFlags := Overwrite(withOffset, OffsetFlags, [flagByte]);
    assert raw[..|sig|] == sig by {
      assert withOffset[..|sig|] == sig;
      assert withFlags[..|sig|] == sig;
    }
    assert raw[0x14..0x16] == ToLittleEndian(h.attributesOffset, 2) by {
      assert withFlags[0x14..0x16] == withOffset[0x14..0x16];
    }
    assert raw[0x16] == flagByte;
    DecodeEncode(h.attributesOffset, 2);
    DecodeEncode(h.recordNumber, 4);
  }

  /** The decoder reads nothing but the signature bytes, the three fields and
      the record's length class: records that agree there decode alike. */
  lemma {:induction false} OnlyHeaderFieldsMatter(raw1: seq<byte>, raw2: seq<byte>, sig: seq<byte>)
    requires AdmissibleSignature(sig)
    requires |raw1| >= HeaderLength && |raw2| >= HeaderLength
    requires raw1[..|sig|] == raw2[..|sig|]
    requires raw1[0x14..0x17] == raw2[0x14..0x17] && raw1[0x2C..0x30] == raw2[0x2C..0x30]
    ensures ParseHeader(raw1, sig) == ParseHeader(raw2, sig)
  {
    assert raw1[0x14..0x16] == raw1[0x14..0x17][..2];
    assert raw2[0x14..0x16] == raw2[0x14..0x17][..2];
    assert raw1[0x16] == raw1[0x14..0x17][2];
    assert raw2[0x16] == raw2[0x14..0x17][2];
  }
}
